/** Ledger and event log over every run: any interleaving of sessions, campaigns, commits and rolled-back crashes. */
module PersistenceTheorems {
  import opened Wrappers
  import opened Pricing
  import opened Ledger
  import opened LedgerTheorems
  import opened Sessions
  import opened SessionTheorems
  import opened EventStores
  import opened StoreTheorems
  import opened Reconciliation
  import opened BudgetLedgers
  import opened AttemptUnits
  import opened PersistenceInvariant
  import opened PersistenceSteps
  import opened PersistenceCommits
  import opened PersistenceFinishes
  import ReconciliationTheorems
  import LedgerAudit
  import SessionAudit

  /** One transaction of some writer, with the crash it may meet. */
  datatype Operation =
    | CreateCampaignOp(campaign: CampaignInput)
    | AppendOp(session: string, pending: seq<Pending>, expected: Option<nat>, crash: Option<nat>)
    | LocalStartOp(local: LocalInput, fault: Fault)
    | BudgetedStartOp(start: StartInput, fault: Fault)
    | FinishOp(finish: FinishInput, fault: Fault)

  /** Attempts start and finish through the unit of work only. */
  predicate Permitted(op: Operation) {
    op.AppendOp? ==> forall i :: 0 <= i < |op.pending| ==> !Metered(op.pending[i].data)
  }

  /** What a transaction commits; None where it rolls back. */
  function Commit(t: Tables, op: Operation): Option<Tables> {
    match op
    case CreateCampaignOp(input) =>
      (match CreateCampaign(t.rows, input) case Success(rows) => Some(t.(rows := rows)) case Failure(_) => None)
    case AppendOp(session, pending, expected, crash) =>
      (match Append(t, session, pending, expected, crash) case Success(next) => Some(next) case Failure(_) => None)
    case LocalStartOp(input, fault) =>
      (match LocalStart(t, input, fault) case Success(next) => Some(next) case Failure(_) => None)
    case BudgetedStartOp(input, fault) =>
      (match BudgetedStart(t, input, fault) case Success(next) => Some(next) case Failure(_) => None)
    case FinishOp(input, fault) =>
      (match AttemptFinish(t, input, fault) case Success(next) => Some(next) case Failure(_) => None)
  }

  function Step(t: Tables, op: Operation): Tables {
    Commit(t, op).GetOr(t)
  }

  function Run(t: Tables, ops: seq<Operation>): Tables {
    if ops == [] then t else Step(Run(t, ops[..|ops| - 1]), ops[|ops| - 1])
  }

  ghost predicate AllPermitted(ops: seq<Operation>) {
    forall i :: 0 <= i < |ops| ==> Permitted(ops[i])
  }

  lemma StepKeepsInv(t: Tables, op: Operation)
    requires Inv(t) && Permitted(op)
    ensures Inv(Step(t, op))
  {
    hide Inv, CreateCampaign, Append, LocalStart, BudgetedStart, AttemptFinish, Metered;
    if Commit(t, op).Some? {
      match op
      case CreateCampaignOp(input) => CampaignKeepsInv(t, input);
      case AppendOp(session, pending, expected, crash) => AppendKeepsInv(t, session, pending, expected, crash);
      case LocalStartOp(input, fault) => LocalStartKeepsInv(t, input, fault);
      case BudgetedStartOp(input, fault) => StartKeepsInv(t, input, fault);
      case FinishOp(input, fault) => FinishKeepsInv(t, input, fault);
    }
  }

  lemma {:induction false} RunKeepsInv(ops: seq<Operation>)
    requires AllPermitted(ops)
    ensures Inv(Run(EMPTY, ops))
  {
    hide Inv, Step, Permitted;
    if ops == [] {
      EmptyIsInv();
    } else {
      RunKeepsInv(ops[..|ops| - 1]);
      StepKeepsInv(Run(EMPTY, ops[..|ops| - 1]), ops[|ops| - 1]);
    }
  }

  /** After every run, `assertEventReconciled` accepts: no interleaving and no crash parts the ledger from the event log. */
  lemma RunsAreReconciled(ops: seq<Operation>)
    requires AllPermitted(ops)
    ensures Reconciled(Run(EMPTY, ops))
  {
    hide Inv, Step, Permitted, Reconciled;
    RunKeepsInv(ops);
    InvIsReconciled(Run(EMPTY, ops));
  }

  // ----- Every row and every session

  /** A step adds at most one row, and only one that the guards admit. */
  ghost predicate Inserts(rows: seq<Row>, next: seq<Row>) {
    next == rows || (|next| == |rows| + 1 && next[..|rows|] == rows && Insertable(rows, next[|rows|]))
  }

  lemma ReserveInserts(rows: seq<Row>, input: ReserveInput)
    requires Reserve(rows, input).Success?
    ensures Inserts(rows, Reserve(rows, input).value.1)
  {
    hide Insertable, Find, GetPosition, ProjectWorstCase;
  }

  lemma ResolveInserts(rows: seq<Row>, input: ResolveInput)
    requires Resolve(rows, input).Success?
    ensures Inserts(rows, Resolve(rows, input).value)
  {
    hide Insertable, Find, ResolutionFits;
  }

  lemma CreateInserts(rows: seq<Row>, input: CampaignInput)
    requires CreateCampaign(rows, input).Success?
    ensures Inserts(rows, CreateCampaign(rows, input).value)
  {
    hide Insertable;
  }

  lemma StartInserts(t: Tables, input: StartInput, fault: Fault)
    requires BudgetedStart(t, input, fault).Success?
    ensures Inserts(t.rows, BudgetedStart(t, input, fault).value.rows)
  {
    hide Inserts, AppendBatch, Find, StateOf, Reconciled, StartBatchFits, Reserve;
    var cap := StateOf(t, input.sessionId).value.policy.value.cap;
    var (resolution, rows') := Reserve(t.rows, ReserveInputOf(input, cap)).value;
    ReserveInserts(t.rows, ReserveInputOf(input, cap));
    AppendBatchKeepsRows(t.(rows := rows'), input.sessionId, input.build(resolution),
                         if resolution.Admitted? then input.admittedIds else input.deniedIds, input.createdAt, input.expected, fault);
  }

  lemma FinishInserts(t: Tables, input: FinishInput, fault: Fault)
    requires AttemptFinish(t, input, fault).Success?
    ensures Inserts(t.rows, AttemptFinish(t, input, fault).value.rows)
  {
    hide Insertable, AppendBatch, Find, StateOf, ResolutionFor, FinishBatchFits, Resolve;
    FinishStandsAt(input.events);
    var s, f := StateOf(t, input.sessionId).value, input.events[FinishIndex(input.events)].finish;
    var a := FindAttempt(s.attempts, f.attemptId).value;
    var rows' := FinishBudget(t.rows, input, a, f).value;
    AppendBatchKeepsRows(t.(rows := rows'), input.sessionId, input.events, input.ids, input.createdAt, input.expected, fault);
    if a.start.reservationId.Some? {
      ResolveInserts(t.rows, ResolutionFor(t.rows, input, a, f).value);
    }
  }

  lemma StepInserts(t: Tables, op: Operation)
    ensures Inserts(t.rows, Step(t, op).rows)
  {
    hide Inserts, CreateCampaign, AppendAll, CurrentState, BudgetedStart, AttemptFinish;
    NothingInserts(t.rows);
    if Commit(t, op).Some? {
      match op
      case CreateCampaignOp(input) => CreateInserts(t.rows, input);
      case AppendOp(_, _, _, _) =>
      case LocalStartOp(_, _) =>
      case BudgetedStartOp(input, fault) => StartInserts(t, input, fault);
      case FinishOp(input, fault) => FinishInserts(t, input, fault);
    }
  }

  lemma NothingInserts(rows: seq<Row>)
    ensures Inserts(rows, rows)
  {
  }

  /**
   * After every run each row is one its schema admits, beside all the others: limits, amounts, scopes, identities, one
   * credential per campaign, one attempt and admission per reservation, and one fitting terminal row per reservation.
   */
  lemma {:induction false} RunsAreLawful(ops: seq<Operation>)
    ensures LedgerAudit.Lawful(Run(EMPTY, ops).rows)
  {
    hide Step, LedgerAudit.CampaignReads, LedgerAudit.ReservationReads, LedgerAudit.Ends, LedgerAudit.Opens, Insertable;
    if ops != [] {
      var before := Run(EMPTY, ops[..|ops| - 1]);
      RunsAreLawful(ops[..|ops| - 1]);
      StepInserts(before, ops[|ops| - 1]);
      hide LedgerAudit.Lawful;
      var next := Step(before, ops[|ops| - 1]).rows;
      if next != before.rows {
        LedgerAudit.InsertKeepsLawful(before.rows, next[|before.rows|]);
        assert next == before.rows + [next[|before.rows|]];
      }
    }
  }

  /** After every run each session that replays holds in every respect, and its events are in order if it has a policy. */
  lemma SessionsHold(ops: seq<Operation>, session: string)
    requires StateOf(Run(EMPTY, ops), session).Some?
    ensures SessionAudit.Holds(StateOf(Run(EMPTY, ops), session).value)
    ensures StateOf(Run(EMPTY, ops), session).value.policy.Some? ==>
              SessionAudit.WellOrdered(EventsOf(Run(EMPTY, ops).log, session))
  {
    hide Run, EventsOf, Replay, SessionAudit.Holds, SessionAudit.WellOrdered;
    var events := EventsOf(Run(EMPTY, ops).log, session);
    SessionAudit.ReplaysHold(events);
    if Replay(events).value.policy.Some? {
      SessionAudit.ReplaysAreOrdered(events);
    }
  }

  // ----- One reservation per session

  ghost predicate OnePerSession(rows: seq<Row>) {
    forall i, j :: 0 <= i < j < |rows| && rows[i].ReservationRow? && rows[j].ReservationRow? ==> rows[i].sessionId != rows[j].sessionId
  }

  lemma RowKeepsOnePerSession(rows: seq<Row>, row: Row)
    requires OnePerSession(rows) && (row.ReservationRow? ==> !SessionReserved(rows, row.sessionId))
    ensures OnePerSession(rows + [row])
  {
  }

  lemma ReserveKeepsOnePerSession(rows: seq<Row>, input: ReserveInput)
    requires OnePerSession(rows) && Reserve(rows, input).Success?
    ensures OnePerSession(Reserve(rows, input).value.1)
  {
    hide OnePerSession, Find, Insertable, GetPosition, ProjectWorstCase;
    if Reserve(rows, input).value.0.Admitted? {
      RowKeepsOnePerSession(rows, Reserve(rows, input).value.0.reservation);
    }
  }

  lemma StartKeepsOnePerSession(t: Tables, input: StartInput, fault: Fault)
    requires OnePerSession(t.rows) && BudgetedStart(t, input, fault).Success?
    ensures OnePerSession(BudgetedStart(t, input, fault).value.rows)
  {
    hide OnePerSession, AppendBatch, Find, StateOf, Reconciled, StartBatchFits, Reserve;
    var cap := StateOf(t, input.sessionId).value.policy.value.cap;
    var (resolution, rows') := Reserve(t.rows, ReserveInputOf(input, cap)).value;
    ReserveKeepsOnePerSession(t.rows, ReserveInputOf(input, cap));
    AppendBatchKeepsRows(t.(rows := rows'), input.sessionId, input.build(resolution),
                         if resolution.Admitted? then input.admittedIds else input.deniedIds, input.createdAt, input.expected, fault);
  }

  lemma FinishKeepsOnePerSession(t: Tables, input: FinishInput, fault: Fault)
    requires OnePerSession(t.rows) && AttemptFinish(t, input, fault).Success?
    ensures OnePerSession(AttemptFinish(t, input, fault).value.rows)
  {
    hide OnePerSession, Insertable, AppendBatch, Find, StateOf, ResolutionFor, FinishBatchFits;
    FinishStandsAt(input.events);
    var s, f := StateOf(t, input.sessionId).value, input.events[FinishIndex(input.events)].finish;
    var a := FindAttempt(s.attempts, f.attemptId).value;
    var rows' := FinishBudget(t.rows, input, a, f).value;
    AppendBatchKeepsRows(t.(rows := rows'), input.sessionId, input.events, input.ids, input.createdAt, input.expected, fault);
    if a.start.reservationId.Some? {
      RowKeepsOnePerSession(t.rows, rows'[|t.rows|]);
    }
  }

  lemma StepKeepsOnePerSession(t: Tables, op: Operation)
    requires OnePerSession(t.rows)
    ensures OnePerSession(Step(t, op).rows)
  {
    hide OnePerSession, Insertable, AppendAll, CurrentState, BudgetedStart, AttemptFinish;
    if Commit(t, op).Some? {
      match op
      case CreateCampaignOp(input) => RowKeepsOnePerSession(t.rows, Step(t, op).rows[|t.rows|]);
      case AppendOp(_, _, _, _) =>
      case LocalStartOp(_, _) =>
      case BudgetedStartOp(input, fault) => StartKeepsOnePerSession(t, input, fault);
      case FinishOp(input, fault) => FinishKeepsOnePerSession(t, input, fault);
    }
  }

  /** In every run, whoever writes, no session holds two reservations. */
  lemma {:induction false} SessionsReserveOnce(ops: seq<Operation>)
    ensures OnePerSession(Run(EMPTY, ops).rows)
  {
    hide Step;
    if ops != [] {
      SessionsReserveOnce(ops[..|ops| - 1]);
      StepKeepsOnePerSession(Run(EMPTY, ops[..|ops| - 1]), ops[|ops| - 1]);
    }
  }

  /** A paid attempt's reservation is its session's only one. */
  lemma PaidByTheOnlyReservation(rows: seq<Row>, s: SessionState, a: Attempt, r: Row)
    requires OnePerSession(rows) && a.start.reservationId.Some? && AttemptReconciled(rows, s, a)
    requires r in rows && r.ReservationRow? && r.sessionId == s.id
    ensures a.start.reservationId == Some(r.id)
  {
    var own := FindReservation(rows, a.start.reservationId.value).value;
    assert own in rows && own.ReservationRow? && own.sessionId == s.id && own.id == a.start.reservationId.value;
    hide AttemptReconciled, Find;
    var i :| 0 <= i < |rows| && rows[i] == own;
    var j :| 0 <= j < |rows| && rows[j] == r;
  }

  /** Every run leaves each session with at most one paid attempt. */
  lemma OnePaidAttempt(ops: seq<Operation>, session: string, j: nat, k: nat)
    requires AllPermitted(ops) && session in Run(EMPTY, ops).sessions && StateOf(Run(EMPTY, ops), session).Some?
    requires var attempts := StateOf(Run(EMPTY, ops), session).value.attempts;
             j < |attempts| && k < |attempts| && attempts[j].start.reservationId.Some? && attempts[k].start.reservationId.Some?
    ensures j == k
  {
    var t := Run(EMPTY, ops);
    RunKeepsInv(ops);
    SessionsReserveOnce(ops);
    SessionIsReconciled(t, session);
    StateIsOfSession(t, session);
    var s := StateOf(t, session).value;
    var id := s.attempts[j].start.reservationId.value;
    assert AttemptReconciled(t.rows, s, s.attempts[j]) && AttemptReconciled(t.rows, s, s.attempts[k]);
    AttemptNamesItsSession(t, session, s, s.attempts[j]);
    hide Run, Inv, StateOf, AttemptReconciled, OnePerSession, Find;
    PaidByTheOnlyReservation(t.rows, s, s.attempts[k], FindReservation(t.rows, id).value);
  }

  /** Every paid attempt of every run was decided with its session's whole episode cap remaining, and it is the only one. */
  lemma PaidAttemptsHaveTheCap(ops: seq<Operation>, session: string, k: nat)
    requires AllPermitted(ops)
    requires var t := Run(EMPTY, ops);
             StateOf(t, session).Some? && k < |StateOf(t, session).value.attempts|
             && StateOf(t, session).value.attempts[k].start.reservationId.Some?
    ensures var t := Run(EMPTY, ops);
            var s := StateOf(t, session).value;
            var found := FindDecision(s.decisions, s.attempts[k].start.decisionId);
            && session in t.sessions && found.Some? && found.value.billing.Some? && s.policy.Some?
            && found.value.billing.value.remainingEpisode == s.policy.value.cap
            && (forall j :: 0 <= j < |s.attempts| && j != k ==> s.attempts[j].start.reservationId.None?)
            && (forall r :: r in t.rows && r.ReservationRow? && r.sessionId == session ==>
                  s.attempts[k].start.reservationId == Some(r.id))
  {
    PaidAttemptIsAlone(ops, session, k);
    hide Linked, AllBounded, ReservationsHeld, Run, Permitted, Replay, EventsOf, Find, FindTerminal, TerminalMatches, AdmissionMatches;
    RunKeepsInv(ops);
    var t := Run(EMPTY, ops);
    StateHasSession(t, session);
    assert PaidReconciled(t.rows, StateOf(t, session).value);
  }

  lemma PaidAttemptIsAlone(ops: seq<Operation>, session: string, k: nat)
    requires AllPermitted(ops) && StateOf(Run(EMPTY, ops), session).Some?
    requires var attempts := StateOf(Run(EMPTY, ops), session).value.attempts;
             k < |attempts| && attempts[k].start.reservationId.Some?
    ensures var t := Run(EMPTY, ops);
            var s := StateOf(t, session).value;
            && (forall j :: 0 <= j < |s.attempts| && j != k ==> s.attempts[j].start.reservationId.None?)
            && (forall r :: r in t.rows && r.ReservationRow? && r.sessionId == session ==>
                  s.attempts[k].start.reservationId == Some(r.id))
  {
    var t := Run(EMPTY, ops);
    RunKeepsInv(ops);
    SessionsReserveOnce(ops);
    StateHasSession(t, session);
    SessionIsReconciled(t, session);
    StateIsOfSession(t, session);
    var s := StateOf(t, session).value;
    assert AttemptReconciled(t.rows, s, s.attempts[k]);
    hide Run, Inv, StateOf, AttemptReconciled, OnePerSession, Permitted;
    forall j | 0 <= j < |s.attempts| && s.attempts[j].start.reservationId.Some? ensures j == k {
      OnePaidAttempt(ops, session, j, k);
    }
    forall r | r in t.rows && r.ReservationRow? && r.sessionId == session
      ensures s.attempts[k].start.reservationId == Some(r.id)
    {
      PaidByTheOnlyReservation(t.rows, s, s.attempts[k], r);
    }
  }

  lemma StateHasSession(t: Tables, session: string)
    requires StoreSound(t) && StateOf(t, session).Some?
    ensures session in t.sessions
  {
    hide EventsOf;
  }

  // ----- Money

  /**
   * In every run, the exposure a position reports is at most the automatic stop plus what overruns charged above their
   * reservations; without an overrun it is at most the automatic stop, and so the hard ceiling.
   */
  lemma ExposureIsBounded(ops: seq<Operation>, campaignId: string, session: string, cap: nat)
    requires AllPermitted(ops) && GetPosition(Run(EMPTY, ops).rows, campaignId, session, cap).Success?
    ensures var rows := Run(EMPTY, ops).rows;
            var position := GetPosition(rows, campaignId, session, cap).value;
            var campaign := FindCampaign(rows, campaignId).value;
            && position.campaignExposure <= campaign.stop + Excess(EntriesOf(rows, campaignId), rows)
            && (!position.disabled ==> position.campaignExposure <= campaign.stop <= campaign.ceiling)
  {
    hide Run, Permitted, Linked, StoreSound, AllPaidReconciled, ReservationsHeld, Find, EntriesOf, EpisodeExposure, Exposure;
    RunKeepsInv(ops);
    var rows := Run(EMPTY, ops).rows;
    var campaign := FindCampaign(rows, campaignId).value;
    assert Bounded(rows, campaign);
    if !HasOverrun(EntriesOf(rows, campaignId)) {
      NoOverrunMeansWithinStop(rows, campaign);
    }
  }

  /**
   * In every run a campaign's exposure is its opening exposure and, for each paid attempt the event log replays, the cost
   * of its finish, or its projection while it is open: no microdollar is lost, added or counted twice.
   */
  lemma MoneyIsConserved(ops: seq<Operation>, campaignId: string)
    requires AllPermitted(ops) && FindCampaign(Run(EMPTY, ops).rows, campaignId).Some?
    ensures var t := Run(EMPTY, ops);
            var opening := FindCampaign(t.rows, campaignId).value.opening;
            Exposure(opening, EntriesOf(t.rows, campaignId))
            == opening + ReconciliationTheorems.Total(
                 ReconciliationTheorems.LogCharges(t, ReconciliationTheorems.SessionsOf(t.log), campaignId))
  {
    hide Run, Permitted, Find, EntriesOf, Exposure, Reconciled, ReconciliationTheorems.LogCharges;
    RunKeepsInv(ops);
    var t := Run(EMPTY, ops);
    InvIsReconciled(t);
    ReconciliationTheorems.ExposureIsLogged(t, campaignId, FindCampaign(t.rows, campaignId).value.opening);
  }

  /** In every run a session's episode exposure is its one reservation's amount, and what its terminal row charged once there is one. */
  lemma EpisodesOweTheirReservation(ops: seq<Operation>, r: Row)
    requires AllPermitted(ops) && r in Run(EMPTY, ops).rows && r.ReservationRow?
    ensures var rows := Run(EMPTY, ops).rows;
            var exposure := EpisodeExposure(EntriesOf(rows, r.campaignId), r.sessionId);
            && ((forall x :: x in rows && x.TerminalRow? ==> x.reservationId != r.id) ==> exposure == r.amount)
            && (forall x :: x in rows && x.TerminalRow? && x.reservationId == r.id ==> exposure == x.amount)
  {
    hide Run, Permitted, Find, EntriesOf, EpisodeExposure, StoreSound, AllPaidReconciled, ReservationsHeld, AllBounded, Linked;
    RunKeepsInv(ops);
    SessionsReserveOnce(ops);
    var rows := Run(EMPTY, ops).rows;
    forall e | e in rows && e.ReservationRow? && e.sessionId == r.sessionId ensures e == r {
      var i :| 0 <= i < |rows| && rows[i] == e;
      var j :| 0 <= j < |rows| && rows[j] == r;
    }
    EpisodeExposureIsItsReservation(rows, r);
  }

  /** A position never fails for a dangling terminal row. */
  lemma PositionsAreAnchored(ops: seq<Operation>, campaignId: string, session: string, cap: nat)
    requires AllPermitted(ops)
    ensures var result := GetPosition(Run(EMPTY, ops).rows, campaignId, session, cap);
            result.Failure? ==> result.error.UnknownCampaign? || result.error.UnsafeExposure?
  {
    hide Run, Permitted, StoreSound, AllPaidReconciled, ReservationsHeld, Find, AllBounded, Anchored, PositionOf;
    RunKeepsInv(ops);
    LinkedIsAnchored(Run(EMPTY, ops).rows, campaignId);
  }

  /** The ledger only grows, and a step after an overrun adds no reservation of that campaign. */
  lemma StepAfterOverrun(t: Tables, op: Operation, campaignId: string)
    requires HasOverrun(EntriesOf(t.rows, campaignId))
    ensures t.rows <= Step(t, op).rows && |Step(t, op).rows| <= |t.rows| + 1
    ensures |Step(t, op).rows| == |t.rows| + 1 ==>
              !(Step(t, op).rows[|t.rows|].ReservationRow? && Step(t, op).rows[|t.rows|].campaignId == campaignId)
    ensures HasOverrun(EntriesOf(Step(t, op).rows, campaignId))
  {
    hide HasOverrun, EntriesOf, Insertable, AppendAll, CurrentState;
    if Commit(t, op).Some? {
      match op
      case CreateCampaignOp(input) => OverrunStays(t.rows, Step(t, op).rows[|t.rows|], campaignId);
      case AppendOp(_, _, _, _) =>
      case LocalStartOp(_, _) =>
      case BudgetedStartOp(input, fault) => StartAfterOverrun(t, input, fault, campaignId);
      case FinishOp(input, fault) => FinishAfterOverrun(t, input, fault, campaignId);
    }
  }

  lemma AppendBatchKeepsRows(t: Tables, session: string, events: seq<EventData>, ids: seq<string>, createdAt: Time, expected: nat, fault: Fault)
    requires AppendBatch(t, session, events, ids, createdAt, expected, fault).Success?
    ensures AppendBatch(t, session, events, ids, createdAt, expected, fault).value.rows == t.rows
  {
    hide AppendAll, CurrentState;
  }

  lemma StartAfterOverrun(t: Tables, input: StartInput, fault: Fault, campaignId: string)
    requires HasOverrun(EntriesOf(t.rows, campaignId)) && BudgetedStart(t, input, fault).Success?
    ensures var rows' := BudgetedStart(t, input, fault).value.rows;
            && t.rows <= rows' && |rows'| <= |t.rows| + 1 && HasOverrun(EntriesOf(rows', campaignId))
            && (|rows'| == |t.rows| + 1 ==> rows'[|t.rows|].ReservationRow? && rows'[|t.rows|].campaignId != campaignId)
  {
    hide HasOverrun, EntriesOf, Insertable, AppendBatch, Find, StateOf, Reconciled, StartBatchFits, GetPosition, ProjectWorstCase;
    var cap := StateOf(t, input.sessionId).value.policy.value.cap;
    var (resolution, rows') := Reserve(t.rows, ReserveInputOf(input, cap)).value;
    var events := input.build(resolution);
    AppendBatchKeepsRows(t.(rows := rows'), input.sessionId, events,
                         if resolution.Admitted? then input.admittedIds else input.deniedIds, input.createdAt, input.expected, fault);
    if input.campaignId == campaignId {
      OverrunDisables(t.rows, ReserveInputOf(input, cap));
    } else if resolution.Admitted? {
      OverrunStays(t.rows, resolution.reservation, campaignId);
    }
  }

  lemma FinishAfterOverrun(t: Tables, input: FinishInput, fault: Fault, campaignId: string)
    requires HasOverrun(EntriesOf(t.rows, campaignId)) && AttemptFinish(t, input, fault).Success?
    ensures var rows' := AttemptFinish(t, input, fault).value.rows;
            && t.rows <= rows' && |rows'| <= |t.rows| + 1 && HasOverrun(EntriesOf(rows', campaignId))
            && (|rows'| == |t.rows| + 1 ==> rows'[|t.rows|].TerminalRow?)
  {
    hide HasOverrun, EntriesOf, Insertable, AppendBatch, Find, StateOf, ResolutionFor, FinishBatchFits;
    FinishStandsAt(input.events);
    var s, f := StateOf(t, input.sessionId).value, input.events[FinishIndex(input.events)].finish;
    var a := FindAttempt(s.attempts, f.attemptId).value;
    var rows' := FinishBudget(t.rows, input, a, f).value;
    AppendBatchKeepsRows(t.(rows := rows'), input.sessionId, input.events, input.ids, input.createdAt, input.expected, fault);
    if a.start.reservationId.Some? {
      OverrunStays(t.rows, rows'[|t.rows|], campaignId);
    }
  }

  /** Once a campaign has an overrun, no later transaction of any run adds a reservation to it. */
  lemma {:induction false} NoAdmissionAfterOverrun(t: Tables, ops: seq<Operation>, campaignId: string)
    requires HasOverrun(EntriesOf(t.rows, campaignId))
    ensures HasOverrun(EntriesOf(Run(t, ops).rows, campaignId)) && t.rows <= Run(t, ops).rows
    ensures forall i :: |t.rows| <= i < |Run(t, ops).rows| ==>
              !(Run(t, ops).rows[i].ReservationRow? && Run(t, ops).rows[i].campaignId == campaignId)
  {
    hide HasOverrun, EntriesOf, Step;
    if ops != [] {
      NoAdmissionAfterOverrun(t, ops[..|ops| - 1], campaignId);
      StepAfterOverrun(Run(t, ops[..|ops| - 1]), ops[|ops| - 1], campaignId);
    }
  }

  // ----- Event order

  lemma AppendOnlyGrows(t: Tables, next: Tables, session: string, pending: seq<Pending>, expected: Option<nat>, fault: Option<nat>)
    requires StoreSound(t) && Append(t, session, pending, expected, fault) == Success(next)
    ensures StoreSound(next) && forall s :: EventsOf(t.log, s) <= EventsOf(next.log, s)
  {
    hide EventsOf, Append, StoreSound;
    AppendKeepsStoreSound(t, session, pending, expected, fault);
  }

  /** Any transaction, of the unit of work or not, appends to sessions' events and keeps the store sound. */
  lemma StepKeepsStore(t: Tables, op: Operation)
    requires StoreSound(t)
    ensures StoreSound(Step(t, op)) && forall s :: EventsOf(t.log, s) <= EventsOf(Step(t, op).log, s)
  {
    hide EventsOf, StoreSound, Append, CreateCampaign, BudgetedStart, AttemptFinish, LocalBatchFits;
    var next := Step(t, op);
    if Commit(t, op).Some? {
      match op
      case CreateCampaignOp(_) => LogDecidesSound(t, next);
      case AppendOp(session, pending, expected, crash) => AppendOnlyGrows(t, next, session, pending, expected, crash);
      case LocalStartOp(input, fault) =>
        AppendOnlyGrows(t, next, input.sessionId, Batch(input.events, input.ids, input.createdAt), Some(input.expected), EventFault(fault));
      case BudgetedStartOp(input, fault) => StartKeepsStore(t, input, fault);
      case FinishOp(input, fault) => FinishKeepsStore(t, input, fault);
    }
  }

  lemma StartKeepsStore(t: Tables, input: StartInput, fault: Fault)
    requires StoreSound(t) && BudgetedStart(t, input, fault).Success?
    ensures var next := BudgetedStart(t, input, fault).value;
            StoreSound(next) && forall s :: EventsOf(t.log, s) <= EventsOf(next.log, s)
  {
    hide EventsOf, StoreSound, Append, Find, Reserve, Reconciled, StartBatchFits, StateOf;
    var cap := StateOf(t, input.sessionId).value.policy.value.cap;
    var (resolution, rows') := Reserve(t.rows, ReserveInputOf(input, cap)).value;
    LogDecidesSound(t, t.(rows := rows'));
    AppendOnlyGrows(t.(rows := rows'), BudgetedStart(t, input, fault).value, input.sessionId,
                    Batch(input.build(resolution), if resolution.Admitted? then input.admittedIds else input.deniedIds, input.createdAt),
                    Some(input.expected), EventFault(fault));
  }

  lemma FinishKeepsStore(t: Tables, input: FinishInput, fault: Fault)
    requires StoreSound(t) && AttemptFinish(t, input, fault).Success?
    ensures var next := AttemptFinish(t, input, fault).value;
            StoreSound(next) && forall s :: EventsOf(t.log, s) <= EventsOf(next.log, s)
  {
    hide EventsOf, StoreSound, Append, FinishBudget, FinishBatchFits, StateOf, FindAttempt;
    FinishStandsAt(input.events);
    var s, f := StateOf(t, input.sessionId).value, input.events[FinishIndex(input.events)].finish;
    var rows' := FinishBudget(t.rows, input, FindAttempt(s.attempts, f.attemptId).value, f).value;
    LogDecidesSound(t, t.(rows := rows'));
    AppendOnlyGrows(t.(rows := rows'), AttemptFinish(t, input, fault).value, input.sessionId,
                    Batch(input.events, input.ids, input.createdAt), Some(input.expected), EventFault(fault));
  }

  lemma {:induction false} RunKeepsStore(t: Tables, ops: seq<Operation>)
    requires StoreSound(t)
    ensures StoreSound(Run(t, ops)) && forall s :: EventsOf(t.log, s) <= EventsOf(Run(t, ops).log, s)
  {
    hide EventsOf, StoreSound, Step;
    if ops != [] {
      RunKeepsStore(t, ops[..|ops| - 1]);
      StepKeepsStore(Run(t, ops[..|ops| - 1]), ops[|ops| - 1]);
    }
  }

  /**
   * After any interleaving of writers, permitted or not, a session's events are numbered 1..n without gaps and its
   * stored projection is the left fold of the reducer over all of them.
   */
  lemma EventsAreNumberedAndFolded(ops: seq<Operation>, session: string)
    requires session in Run(EMPTY, ops).sessions
    ensures var t := Run(EMPTY, ops);
            var events := EventsOf(t.log, session);
            && (forall k :: 0 <= k < |events| ==> events[k].sequence == k + 1 && events[k].sessionId == session)
            && Replay(events).Some? && t.sessions[session] == SessionRow(|events|, Replay(events).value)
  {
    hide EventsOf, Replay, Run, IdsUnique;
    EmptyIsStoreSound();
    RunKeepsStore(EMPTY, ops);
    SequenceIsCount(Run(EMPTY, ops), session);
    EventsAreOfSession(Run(EMPTY, ops).log, session);
  }

  lemma EmptyIsStoreSound()
    ensures StoreSound(EMPTY)
  {
  }

  /** Of two appends that expect the same sequence, however much happens between them, at most one commits. */
  lemma OnlyOneExpectationCommits(before: seq<Operation>, between: seq<Operation>, session: string, first: seq<Pending>,
                                  second: seq<Pending>, expected: nat, crash: Option<nat>, crash': Option<nat>)
    requires first != [] && second != []
    requires Append(Run(EMPTY, before), session, first, Some(expected), crash).Success?
    ensures var t := Append(Run(EMPTY, before), session, first, Some(expected), crash).value;
            Append(Run(t, between), session, second, Some(expected), crash').Failure?
  {
    hide EventsOf, Append, Run, StoreSound, Replay;
    EmptyIsStoreSound();
    RunKeepsStore(EMPTY, before);
    var start := Run(EMPTY, before);
    var t := Append(start, session, first, Some(expected), crash).value;
    AppendKeepsStoreSound(start, session, first, Some(expected), crash);
    ExpectationIsCount(start, session, first, expected, crash);
    RunKeepsStore(t, between);
    var later := Run(t, between);
    assert |EventsOf(later.log, session)| > expected;
    if Append(later, session, second, Some(expected), crash').Success? {
      ExpectationIsCount(later, session, second, expected, crash');
    }
  }

  // ----- The objects run the same operations

  lemma InvIsDistinct(t: Tables)
    requires Inv(t)
    ensures Distinct(t.rows)
  {
  }

  lemma RunOfNext(t: Tables, ops: seq<Operation>, k: nat)
    requires k < |ops|
    ensures Run(t, ops[..k + 1]) == Step(Run(t, ops[..k]), ops[k])
  {
    hide Step;
    assert ops[..k + 1][..k] == ops[..k];
  }

  /** One operation on the mutable objects. */
  method Perform(unit: AttemptUnitOfWork, op: Operation)
    requires Distinct(unit.ledger.store.database.rows)
    modifies unit.ledger.store.database
    ensures unit.Contents() == Step(old(unit.Contents()), op)
  {
    hide CreateCampaign, Append, LocalStart, BudgetedStart, AttemptFinish;
    match op
    case CreateCampaignOp(input) => var _ := unit.ledger.InsertCampaign(input);
    case AppendOp(session, pending, expected, crash) =>
      var _ := unit.ledger.store.AppendInternal(session, pending, expected, crash);
    case LocalStartOp(input, fault) => var _ := unit.CommitLocalStart(input, fault);
    case BudgetedStartOp(input, fault) => var _ := unit.CommitBudgetedStart(input, fault);
    case FinishOp(input, fault) => var _ := unit.CommitAttemptFinish(input, fault);
  }

  /** A whole history on a new database: the gate accepts at its end. */
  method RunHistory(ops: seq<Operation>) returns (unit: AttemptUnitOfWork, reconciled: bool)
    requires AllPermitted(ops)
    ensures fresh(unit) && unit.Contents() == Run(EMPTY, ops) && reconciled
  {
    hide Inv, Run, Permitted, Reconciled, Distinct;
    var database := new SoarDatabase();
    var store := new EventStore(database);
    var ledger := new BudgetLedger(store);
    unit := new AttemptUnitOfWork(ledger);
    assert ops[..0] == [];
    RunOfNothing();
    for k := 0 to |ops|
      invariant unit.ledger == ledger && ledger.store == store && store.database == database && fresh(database)
      invariant unit.Contents() == Run(EMPTY, ops[..k])
    {
      RunKeepsInv(ops[..k]);
      InvIsDistinct(Run(EMPTY, ops[..k]));
      Perform(unit, ops[k]);
      RunOfNext(EMPTY, ops, k);
    }
    assert ops[..|ops|] == ops;
    RunKeepsInv(ops);
    InvIsDistinct(Run(EMPTY, ops));
    RunsAreReconciled(ops);
    reconciled := ledger.AssertEventReconciled();
  }

  lemma RunOfNothing()
    ensures Run(EMPTY, []) == EMPTY
  {
  }
}
