/** Campaign creation, budgeted starts and finishes keep the persistence invariant. */
module PersistenceCommits {
  import opened Wrappers
  import opened Pricing
  import opened Ledger
  import opened LedgerTheorems
  import opened Sessions
  import opened SessionTheorems
  import opened EventStores
  import opened StoreTheorems
  import opened Reconciliation
  import opened AttemptUnits
  import opened PersistenceInvariant
  import opened PersistenceSteps

  // ----- Campaigns

  lemma CampaignKeepsInv(t: Tables, input: CampaignInput)
    requires Inv(t) && CreateCampaign(t.rows, input).Success?
    ensures Inv(t.(rows := CreateCampaign(t.rows, input).value))
  {
    hide Linked, AllBounded, EventsOf, Replay, AttemptReconciled, Insertable, StoreSound, Touches, ProjectionHolds;
    CreateKeepsBounds(t.rows, input);
    var rows' := CreateCampaign(t.rows, input).value;
    var next := t.(rows := rows');
    CampaignTouches(t.rows, input, "");
    LogDecidesSound(t, next);
    forall s | s in t.sessions && StateOf(t, s).Some? ensures PaidReconciled(rows', StateOf(t, s).value) {
      CampaignTouches(t.rows, input, s + "!");
      LongerIsOther(s);
      OthersStay(t, rows', s + "!", s);
    }
    forall r | r in rows' && r.ReservationRow? ensures ProjectionHolds(r) && r.sessionId in t.sessions && PaysFor(next, r.sessionId, r.id) {
      assert r in t.rows;
      assert PaysFor(t, r.sessionId, r.id);
    }
  }

  lemma LongerIsOther(s: string)
    ensures s + "!" != s
  {
    assert |s + "!"| > |s|;
  }

  lemma CampaignTouches(rows: seq<Row>, input: CampaignInput, session: string)
    requires CreateCampaign(rows, input).Success?
    ensures Touches(rows, CreateCampaign(rows, input).value, session)
  {
    hide Find;
  }

  /** Soundness of the store does not depend on the ledger. */
  lemma LogDecidesSound(t: Tables, next: Tables)
    requires StoreSound(t) && next.log == t.log && next.sessions == t.sessions
    ensures StoreSound(next)
    ensures forall s :: StateOf(next, s) == StateOf(t, s)
  {
    hide EventsOf, Replay;
  }

  // ----- Budgeted starts

  /** A decision recorded earlier in a batch is still the one its attempt names. */
  lemma NamedDecision(before: seq<Decision>, d: Decision, id: string)
    requires FindDecision(before + [d], id).Some?
    requires forall i :: 0 <= i < |before| ==> before[i].reservationId != d.reservationId
    requires FindDecision(before + [d], id).value.reservationId == d.reservationId
    ensures FindDecision(before + [d], id) == Some(d)
  {
    var found := FindDecision(before + [d], id).value;
    assert found in before + [d] && found !in before;
  }

  lemma FoldStep(s: SessionState, events: seq<StoredEvent>, n: nat)
    requires n < |events| && FoldFrom(s, events[..n + 1]).Some?
    ensures FoldFrom(s, events[..n]).Some?
    ensures Reduce(FoldFrom(s, events[..n]).value, events[n]) == FoldFrom(s, events[..n + 1])
  {
    hide Reduce;
    assert events[..n + 1][..n] == events[..n];
  }

  lemma DecisionStep(s: SessionState, e: StoredEvent)
    requires Reduce(s, e).Some?
    ensures Reduce(s, e).value.decisions == if e.data.DecisionRecorded? then s.decisions + [e.data.decision] else s.decisions
    ensures e.data.DecisionRecorded? && e.data.decision.reservationId.Some? ==>
              forall i :: 0 <= i < |s.decisions| ==> s.decisions[i].reservationId != e.data.decision.reservationId
  {
    hide FollowsGrammar, AttemptAccepted, FinishAccepted, AdmissionAccepted, EventIsValid, MatchesAdmission;
  }

  /** The decisions an admitted batch leaves: the batch's own on top, the only one of its reservation. */
  lemma AdmittedDecisions(s: SessionState, events: seq<StoredEvent>)
    requires |events| == 6 && FoldFrom(s, events).Some?
    requires events[1].data.DecisionRecorded? && events[1].data.decision.reservationId.Some?
    requires forall i :: 0 <= i < 6 && i != 1 ==> !events[i].data.DecisionRecorded?
    ensures var d := events[1].data.decision;
            && FoldFrom(s, events[..5]).Some? && FoldFrom(s, events[..5]).value.decisions == s.decisions + [d]
            && forall i :: 0 <= i < |s.decisions| ==> s.decisions[i].reservationId != d.reservationId
  {
    hide Reduce, FoldFrom;
    assert events[..6] == events && events[..0] == [];
    FoldStep(s, events, 5);
    FoldStep(s, events, 4);
    FoldStep(s, events, 3);
    FoldStep(s, events, 2);
    FoldStep(s, events, 1);
    FoldStep(s, events, 0);
    FoldOfNone(s);
    DecisionStep(s, events[0]);
    DecisionStep(FoldFrom(s, events[..1]).value, events[1]);
    DecisionStep(FoldFrom(s, events[..2]).value, events[2]);
    DecisionStep(FoldFrom(s, events[..3]).value, events[3]);
    DecisionStep(FoldFrom(s, events[..4]).value, events[4]);
  }

  lemma FoldOfNone(s: SessionState)
    ensures FoldFrom(s, []) == Some(s)
  {
  }

  /** What an admitted start batch does to its session. */
  lemma AdmittedFold(s: SessionState, events: seq<StoredEvent>)
    requires |events| == 6 && FoldFrom(s, events).Some? && SessionSound(FoldFrom(s, events).value)
    requires events[1].data.DecisionRecorded? && events[5].data.AttemptStarted?
    requires forall i :: 0 <= i < 5 ==> !Metered(events[i].data) && (i != 1 ==> !events[i].data.DecisionRecorded?)
    requires events[1].data.decision.reservationId.Some?
    requires events[5].data.start.reservationId == events[1].data.decision.reservationId
    ensures var s', d, a := FoldFrom(s, events).value, events[1].data.decision, events[5].data.start;
            && s'.attempts == s.attempts + [Attempt(a, events[5].createdAt, None)]
            && d in s'.decisions && FindDecision(s'.decisions, a.decisionId) == Some(d) && s'.status.Running?
  {
    hide FoldFrom, FindDecision, FollowsGrammar, DecisionsGrounded;
    var a := events[5].data.start;
    StartFold(s, events);
    AdmittedDecisions(s, events);
    NamedDecision(s.decisions, events[1].data.decision, a.decisionId);
    var s' := FoldFrom(s, events).value;
    assert s'.attempts[|s.attempts|].finished.None?;
  }

  /** The session of a budgeted start, before and after. */
  lemma StartAdvances(t: Tables, input: StartInput, fault: Fault)
    requires Inv(t) && BudgetedStart(t, input, fault).Success?
    ensures StateOf(t, input.sessionId).Some? && StateOf(t, input.sessionId).value.policy.Some?
    ensures var cap := StateOf(t, input.sessionId).value.policy.value.cap;
            var reserved := Reserve(t.rows, ReserveInputOf(input, cap));
            && input.scope.Simulation? && reserved.Success? && FindCampaign(t.rows, input.campaignId).Some?
            && var (resolution, rows') := reserved.value;
               var events := input.build(resolution);
               var ids := if resolution.Admitted? then input.admittedIds else input.deniedIds;
               && StartBatchFits(input, resolution, events, FindCampaign(t.rows, input.campaignId).value.credentialId)
               && |ids| == |events|
               && Advances(t.(rows := rows'), BudgetedStart(t, input, fault).value, input.sessionId,
                           StoredOf(t, input.sessionId, events, ids, input.createdAt))
  {
    hide Reserve, Find, EventsOf, Replay, Linked, AllBounded, AllPaidReconciled, ReservationsHeld, Reconciled,
         AppendBatch, StoreSound, Advances, StartLinks;
    var cap := StateOf(t, input.sessionId).value.policy.value.cap;
    var (resolution, rows') := Reserve(t.rows, ReserveInputOf(input, cap)).value;
    var events := input.build(resolution);
    LogDecidesSound(t, t.(rows := rows'));
    BatchAdvances(t.(rows := rows'), input.sessionId, events,
                  if resolution.Admitted? then input.admittedIds else input.deniedIds, input.createdAt, input.expected, fault);
  }

  lemma DeniedStartKeepsInv(t: Tables, input: StartInput, fault: Fault)
    requires Inv(t) && BudgetedStart(t, input, fault).Success?
    requires var cap := StateOf(t, input.sessionId).value.policy.value.cap;
             StateOf(t, input.sessionId).Some? && StateOf(t, input.sessionId).value.policy.Some?
             && Reserve(t.rows, ReserveInputOf(input, cap)).Success? && Reserve(t.rows, ReserveInputOf(input, cap)).value.0.Denied?
    ensures Inv(BudgetedStart(t, input, fault).value)
  {
    hide Find, EventsOf, Replay, Inv, BudgetedStart, Advances, GetPosition, ProjectWorstCase, Insertable, FoldFrom;
    StartAdvances(t, input, fault);
    var cap := StateOf(t, input.sessionId).value.policy.value.cap;
    var (resolution, rows') := Reserve(t.rows, ReserveInputOf(input, cap)).value;
    assert rows' == t.rows && t.(rows := rows') == t;
    var events := input.build(resolution);
    LocalAdvance(t, BudgetedStart(t, input, fault).value, input.sessionId,
                 StoredOf(t, input.sessionId, events, input.deniedIds, input.createdAt));
  }

  /** After an admitted start: the session gained one paid attempt, and the ledger its reservation. */
  lemma AdmittedStartKeepsInv(t: Tables, input: StartInput, fault: Fault)
    requires Inv(t) && BudgetedStart(t, input, fault).Success?
    requires StateOf(t, input.sessionId).Some? && StateOf(t, input.sessionId).value.policy.Some?
    requires var cap := StateOf(t, input.sessionId).value.policy.value.cap;
             Reserve(t.rows, ReserveInputOf(input, cap)).Success? && Reserve(t.rows, ReserveInputOf(input, cap)).value.0.Admitted?
    ensures Inv(BudgetedStart(t, input, fault).value)
  {
    hide Find, EventsOf, Replay, BudgetedStart, Reserve, FoldFrom, Linked, AllBounded, AllPaidReconciled, ReservationsHeld,
         SessionSound, AttemptReconciled, StoreSound, Touches, Evolves, PaysFor, ProjectionHolds;
    StartAdvances(t, input, fault);
    var s := StateOf(t, input.sessionId).value;
    var given := ReserveInputOf(input, s.policy.value.cap);
    var (resolution, rows') := Reserve(t.rows, given).value;
    var next := BudgetedStart(t, input, fault).value;
    var s' := StateOf(next, input.sessionId).value;
    var stored := StoredOf(t, input.sessionId, input.build(resolution), input.admittedIds, input.createdAt);
    ReserveKeepsBounds(t.rows, given);
    AdmittedBilling(t.rows, given);
    InsertableIsNew(t.rows, resolution.reservation);
    ReservationTouches(t.rows, resolution.reservation, input.sessionId);
    StateIsSound(next, input.sessionId);
    StateHasItsId(next, input.sessionId);
    FoldEvolves(s, stored);
    EvolvesKeepsPolicy(s, s');
    AdmittedFold(s, stored);
    NewAttemptReconciled(t.rows, given, s', s'.attempts[|s.attempts|], stored[1].data.decision);
    OldAttemptsStay(t, rows', input.sessionId, s', resolution.reservation);
    AdmittedIsHeld(t, next, input.sessionId, given, resolution.billing.projected, |s.attempts|);
    KeysSameInv(t, rows', next, input.sessionId);
  }

  lemma EvolvesKeepsPolicy(s: SessionState, s': SessionState)
    requires Evolves(s, s')
    ensures s'.policy == s.policy && s'.id == s.id
  {
  }

  lemma ReservationTouches(rows: seq<Row>, row: Row, session: string)
    requires row.ReservationRow? && !HasId(rows, row.id)
    ensures Touches(rows, rows + [row], session)
  {
  }

  lemma OldAttemptsStay(t: Tables, rows': seq<Row>, session: string, s': SessionState, row: Row)
    requires Inv(t) && session in t.sessions && StateOf(t, session).Some? && rows' == t.rows + [row] && row.ReservationRow?
    requires Touches(t.rows, rows', session)
    requires var s := StateOf(t, session).value;
             Evolves(s, s') && SessionSound(s') && s.attempts <= s'.attempts && |s'.attempts| == |s.attempts| + 1
             && s'.attempts[|s.attempts|].start.reservationId.Some?
             && AttemptReconciled(rows', s', s'.attempts[|s.attempts|])
    ensures PaidReconciled(rows', s')
  {
    hide Linked, AllBounded, ReservationsHeld, AttemptReconciled, EventsOf, Replay, Evolves, StoreSound, SessionSound, Touches;
    var s := StateOf(t, session).value;
    forall k | 0 <= k < |s'.attempts| && s'.attempts[k].start.reservationId.Some?
      ensures AttemptReconciled(rows', s', s'.attempts[k])
    {
      if k < |s.attempts| {
        assert s'.attempts[k] == s.attempts[k];
        OwnAttemptStays(t, rows', session, s', s'.attempts[k]);
      }
    }
  }

  lemma AdmittedIsHeld(t: Tables, next: Tables, session: string, given: ReserveInput, projected: nat, k: nat)
    requires ReservationsHeld(t) && next.rows == t.rows + [ReservationFor(given, projected)]
    requires ProjectWorstCase(given.projection) == Success(projected) && projected > 0 && given.sessionId == session
    requires next.sessions.Keys == t.sessions.Keys && session in t.sessions
    requires StateOf(t, session).Some? && StateOf(next, session).Some? && Evolves(StateOf(t, session).value, StateOf(next, session).value)
    requires forall other :: other != session ==> StateOf(next, other) == StateOf(t, other)
    requires k < |StateOf(next, session).value.attempts|
             && StateOf(next, session).value.attempts[k].start.reservationId == Some(given.reservationId)
    ensures ReservationsHeld(next)
  {
    hide ProjectionHolds, EventsOf, Replay, Evolves, ProjectWorstCase;
    ReservationProjects(given, projected);
    HeldStays(t, next, session);
    assert session in next.sessions.Keys;
    assert PaysFor(next, session, given.reservationId);
  }

  lemma KeysSameInv(t: Tables, rows': seq<Row>, next: Tables, session: string)
    requires Inv(t) && Touches(t.rows, rows', session) && next.rows == rows' && Linked(rows') && AllBounded(rows') && StoreSound(next)
    requires session in t.sessions && next.sessions.Keys == t.sessions.Keys
    requires forall other :: other != session ==> StateOf(next, other) == StateOf(t, other)
    requires StateOf(next, session).Some? && PaidReconciled(rows', StateOf(next, session).value)
    requires ReservationsHeld(next)
    ensures Inv(next)
  {
    hide Inv, Touches, Linked, AllBounded, StoreSound, EventsOf, Replay, PaidReconciled, ReservationsHeld;
    assert session in next.sessions.Keys;
    InvAfter(t, rows', next, session);
  }

  lemma StartKeepsInv(t: Tables, input: StartInput, fault: Fault)
    requires Inv(t) && BudgetedStart(t, input, fault).Success?
    ensures Inv(BudgetedStart(t, input, fault).value)
  {
    hide Inv, BudgetedStart, Reserve, StateOf, Advances;
    StartAdvances(t, input, fault);
    var cap := StateOf(t, input.sessionId).value.policy.value.cap;
    if Reserve(t.rows, ReserveInputOf(input, cap)).value.0.Admitted? {
      AdmittedStartKeepsInv(t, input, fault);
    } else {
      DeniedStartKeepsInv(t, input, fault);
    }
  }
}
