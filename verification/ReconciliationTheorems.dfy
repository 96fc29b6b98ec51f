/** What an accepted reconciliation means: each paid attempt's rows, and where every microdollar of exposure comes from. */
module ReconciliationTheorems {
  import opened Wrappers
  import opened Pricing
  import opened Sorting
  import opened Ledger
  import opened LedgerTheorems
  import opened Sessions
  import opened SessionTheorems
  import opened EventStores
  import opened StoreTheorems
  import opened Reconciliation
  import opened BudgetLedgers
  import opened PersistenceInvariant

  // ----- One paid attempt, row by row

  /** The reservation repeats what the attempt and its decision say about it. */
  predicate Reserves(r: Row, s: SessionState, a: Attempt, d: Decision) {
    && r.ReservationRow? && a.start.reservationId == Some(r.id) && r.sessionId == s.id
    && r.attemptId == a.start.attemptId && r.providerId == a.start.providerId && r.outputTokens == a.start.maxOutput
    && r.createdAt == a.createdAt && r.admissionId == a.start.admissionId
    && r.scope == (if a.start.scope.Some? then a.start.scope.value else Legacy)
    && d.decisionId == a.start.decisionId && d.reason.CloudAdmitted? && d.selectedProvider == r.providerId
    && d.reservationId == Some(r.id) && d.campaignId == Some(r.campaignId) && d.pricingId == Some(r.pricingId)
    && d.admissionId == r.admissionId && r.scope == (if d.scope.Some? then d.scope.value else Legacy) && d.billing.Some?
    && var p := d.billing.value.projection;
       && d.billing.value.projected == r.amount && p.inputTokens == r.inputTokens && p.cacheTokens == r.cacheTokens
       && p.outputTokens == r.outputTokens && p.inputRate == r.rates.input && p.outputRate == r.rates.output
       && p.fee == r.rates.fee && r.rates.cacheRead == (if p.cacheRate.Some? then p.cacheRate.value else 0)
  }

  /** The campaign authorised it, and the session's whole cap and no more than the campaign's stop was left. */
  predicate Authorises(c: Row, s: SessionState, d: Decision, r: Row) {
    && c.CampaignRow? && r.ReservationRow? && c.id == r.campaignId && c.providerId == r.providerId && c.scope == r.scope
    && d.credentialId == Some(c.credentialId) && s.policy.Some? && d.billing.Some?
    && d.billing.value.remainingEpisode == s.policy.value.cap
    && d.billing.value.remainingCampaign <= c.stop - c.opening && d.billing.value.remainingCampaign <= c.ceiling - c.opening
  }

  /** A simulated reservation rests on an admission that passed, with the same messages, provenance and checkpoint. */
  predicate IsAdmitted(s: SessionState, d: Decision, r: Row) {
    r.ReservationRow? && (r.scope.Simulation? ==>
      exists e :: e in s.admissions && Some(e.admissionId) == r.admissionId && d.admissionId == r.admissionId && e.passed
                  && d.messages == Some(e.messages) && d.provenance == Some(e.provenance) && d.checkpointId == Some(e.checkpointId))
  }

  /** The terminal row repeats the finish: its cost, disposition, time, scope, campaign and provenance. */
  ghost predicate Repeats(x: Row, s: SessionState, f: FinishRecord, r: Row) {
    && x.TerminalRow? && r.ReservationRow? && x.reservationId == r.id && x.campaignId == r.campaignId && x.scope == r.scope
    && x.amount == f.finish.cost.amount && x.disposition == f.finish.disposition && x.createdAt == f.createdAt
    && f.finish.cost.reservationId == Some(r.id)
    && r.scope == (if f.finish.cost.scope.Some? then f.finish.cost.scope.value else Legacy)
    && if f.finish.disposition.NotSent? then
         x.kind.Release? && x.provenance.None? && x.reason == f.finish.errorCode && f.finish.cost.provenance.HostPricing?
       else
         && x.provenance == Some(f.finish.cost.provenance)
         && (f.finish.cost.provenance.HostPricing? ==> IsHostPrice(r.rates, f.finish.usage, x.amount))
         && if x.amount > r.amount then
              && x.kind.Overrun? && x.reason == Some("budget_overrun")
              && s.status.Failed? && s.error.Some? && SaysOverrun(s.error.value)
            else x.kind.Settlement? && x.reason.None?
  }

  /** The price of the reported usage at the stored rates, with at most three parts rounded up to a whole microdollar. */
  predicate IsHostPrice(rates: Rates, usage: Usage, amount: nat) {
    Priceable(rates, usage) && RoundsUp(ExactHostCost(rates, usage), amount)
  }

  /** The text mentions a budget overrun, whatever its letter case. */
  ghost predicate SaysOverrun(text: string) {
    exists i: nat :: ReadsOverrunAt(text, i)
  }

  predicate ReadsOverrunAt(text: string, i: nat) {
    i + 14 <= |text|
    && forall j :: 0 <= j < 14 ==>
         text[i + j] == "budget overrun"[j] || (text[i + j] as int + 32 == "budget overrun"[j] as int && 'A' <= text[i + j] <= 'Z')
  }

  /** What the ledger holds for one paid attempt. */
  ghost predicate Backed(rows: seq<Row>, s: SessionState, a: Attempt, r: Row, d: Decision, c: Row) {
    && r in rows && d in s.decisions && c in rows
    && Reserves(r, s, a, d) && Authorises(c, s, d, r) && IsAdmitted(s, d, r)
    && match a.finished
       case None => s.status.Running? && forall x :: x in rows && x.TerminalRow? ==> x.reservationId != r.id
       case Some(f) => exists x :: x in rows && Repeats(x, s, f, r)
  }

  lemma PhraseIsRead(text: string)
    requires MentionsOverrun(text)
    ensures SaysOverrun(text)
  {
    var i :| 0 <= i <= |text| && BeginsWith(text[i..], "budget overrun");
    assert |"budget overrun"| == 14;
    forall j | 0 <= j < 14
      ensures text[i + j] == "budget overrun"[j] || (text[i + j] as int + 32 == "budget overrun"[j] as int && 'A' <= text[i + j] <= 'Z')
    {
      assert Lower(text[i..][j]) == "budget overrun"[j];
      assert text[i..][j] == text[i + j];
    }
    assert ReadsOverrunAt(text, i);
  }

  lemma MatchedFinishRepeats(s: SessionState, f: FinishRecord, r: Row, x: Row)
    requires r.ReservationRow? && x.TerminalRow? && x.reservationId == r.id && FinishMatches(s, f, r, x)
    ensures Repeats(x, s, f, r)
  {
    hide LedgerHostPrice, MentionsOverrun, ReadsOverrunAt, RoundsUp, ExactHostCost, Priceable;
    HostPricesAreExact(r.rates, f.finish.usage);
    if s.error.Some? && MentionsOverrun(s.error.value) {
      PhraseIsRead(s.error.value);
    }
  }

  lemma MatchedStartReserves(rows: seq<Row>, s: SessionState, a: Attempt)
    requires a.start.reservationId.Some? && AttemptReconciled(rows, s, a)
    ensures var r := FindReservation(rows, a.start.reservationId.value);
            var d := FindDecision(s.decisions, a.start.decisionId);
            && r.Some? && d.Some? && Reserves(r.value, s, a, d.value)
            && r.value in rows && d.value in s.decisions && IsAdmitted(s, d.value, r.value)
            && var c := FindCampaign(rows, r.value.campaignId);
               c.Some? && c.value in rows && Authorises(c.value, s, d.value, r.value)
  {
    hide Find, FindDecision, FindAdmission, TerminalMatches;
    var r := FindReservation(rows, a.start.reservationId.value).value;
    var d := FindDecision(s.decisions, a.start.decisionId).value;
    if r.scope.Simulation? {
      var e := FindAdmission(s.admissions, r.admissionId.value).value;
      assert e in s.admissions && e.passed;
    }
  }

  lemma MatchedEnd(rows: seq<Row>, s: SessionState, a: Attempt)
    requires a.start.reservationId.Some? && AttemptReconciled(rows, s, a)
    ensures var r := FindReservation(rows, a.start.reservationId.value);
            && r.Some?
            && match a.finished
               case None => s.status.Running? && forall x :: x in rows && x.TerminalRow? ==> x.reservationId != r.value.id
               case Some(f) =>
                 var x := FindTerminal(rows, r.value.id);
                 x.Some? && x.value in rows && Repeats(x.value, s, f, r.value)
  {
    hide Find, FindTerminal, StartMatches, DecisionMatches, CampaignMatches, AdmissionMatches, FinishMatches;
    var r := FindReservation(rows, a.start.reservationId.value).value;
    if a.finished.Some? {
      MatchedFinishRepeats(s, a.finished.value, r, FindTerminal(rows, r.id).value);
    } else {
      forall x | x in rows && x.TerminalRow? ensures x.reservationId != r.id {
        var i :| 0 <= i < |rows| && rows[i] == x;
      }
    }
  }

  /**
   * When the gate accepts, every paid attempt of every session has its reservation, decision and campaign, and a
   * terminal row exactly if it is finished, all repeating each other amount for amount.
   */
  lemma AcceptedAttemptsAreBacked(t: Tables, session: string, k: nat) returns (r: Row, d: Decision, c: Row)
    requires Reconciled(t) && StateOf(t, session).Some? && k < |StateOf(t, session).value.attempts|
    requires StateOf(t, session).value.attempts[k].start.reservationId.Some?
    ensures Backed(t.rows, StateOf(t, session).value, StateOf(t, session).value.attempts[k], r, d, c)
  {
    var s := StateOf(t, session).value;
    var a := s.attempts[k];
    PaidSessionIsReconciled(t, session, k);
    MatchedStartReserves(t.rows, s, a);
    MatchedEnd(t.rows, s, a);
    hide *;
    hide AttemptReconciled, Reserves, Authorises, IsAdmitted, Repeats, Find, FindDecision, StateOf;
    r := FindReservation(t.rows, a.start.reservationId.value).value;
    d := FindDecision(s.decisions, a.start.decisionId).value;
    c := FindCampaign(t.rows, r.campaignId).value;
  }

  // ----- Paid attempts come from paid events

  lemma {:induction false} PaidAttemptHasEvent(events: seq<StoredEvent>, k: nat)
    requires Replay(events).Some? && k < |Replay(events).value.attempts|
    requires Replay(events).value.attempts[k].start.reservationId.Some?
    ensures exists e :: e in events && IsPaidStart(e)
    decreases |events|
  {
    if |events| > 1 {
      var shorter, last := events[..|events| - 1], events[|events| - 1];
      var before := Replay(shorter).value;
      ReduceKeepsAttempts(before, last, k);
      if k < |before.attempts| {
        PaidAttemptHasEvent(shorter, k);
        var e :| e in shorter && IsPaidStart(e);
        assert e in events;
      } else {
        assert last in events;
      }
    }
  }

  lemma ReduceKeepsAttempts(s: SessionState, e: StoredEvent, k: nat)
    requires Reduce(s, e).Some? && k < |Reduce(s, e).value.attempts|
    ensures if k < |s.attempts| then Reduce(s, e).value.attempts[k].start == s.attempts[k].start
            else e.data.AttemptStarted? && Reduce(s, e).value.attempts[k].start == e.data.start
  {
    hide EventIsValid, FollowsGrammar, AdmissionAccepted, DecisionAccepted, AttemptAccepted, TerminalReady, FindDecision;
  }

  lemma {:induction false} EventIsLogged(log: seq<StoredEvent>, session: string, e: StoredEvent)
    requires e in EventsOf(log, session)
    ensures e in log && e.sessionId == session
  {
    if log != [] && e in EventsOf(log[..|log| - 1], session) {
      EventIsLogged(log[..|log| - 1], session, e);
    }
  }

  lemma PaidSessionIsReconciled(t: Tables, session: string, k: nat)
    requires Reconciled(t) && StateOf(t, session).Some? && k < |StateOf(t, session).value.attempts|
    requires StateOf(t, session).value.attempts[k].start.reservationId.Some?
    ensures SessionReconciled(t, session)
    ensures AttemptReconciled(t.rows, StateOf(t, session).value, StateOf(t, session).value.attempts[k])
  {
    hide RowsReconciled, AttemptReconciled, PaysFor, EventsOf, Replay;
    PaidAttemptHasEvent(EventsOf(t.log, session), k);
    var e :| e in EventsOf(t.log, session) && IsPaidStart(e);
    EventIsLogged(t.log, session, e);
    assert session in Universe(t);
  }

  // ----- Where a campaign's exposure comes from

  /** An amount that one reservation stands for. */
  datatype Charge = Charge(reservationId: string, amount: nat)

  function Total(charges: seq<Charge>): nat {
    if charges == [] then 0 else Total(charges[..|charges| - 1]) + charges[|charges| - 1].amount
  }

  lemma {:induction false} TotalJoins(a: seq<Charge>, b: seq<Charge>)
    ensures Total(a + b) == Total(a) + Total(b)
    decreases |b|
  {
    if b == [] {
      assert a + b == a;
    } else {
      assert (a + b)[..|a + b| - 1] == a + b[..|b| - 1];
      TotalJoins(a, b[..|b| - 1]);
    }
  }

  lemma TotalOfOne(c: Charge)
    ensures Total([c]) == c.amount
  {
    assert [c][..0] == [];
  }

  lemma TotalAround(before: seq<Charge>, c: Charge, after: seq<Charge>)
    ensures Total(before + [c] + after) == Total(before + after) + c.amount
  {
    hide Total;
    TotalJoins(before + [c], after);
    TotalJoins(before, [c]);
    TotalJoins(before, after);
    TotalOfOne(c);
  }

  lemma MembersAround(before: seq<Charge>, c: Charge, after: seq<Charge>)
    ensures multiset(before + [c] + after) == multiset(before + after) + multiset{c}
  {
    assert before + [c] + after == before + ([c] + after);
  }

  lemma LastOccurs(shorter: seq<Charge>, last: Charge, b: seq<Charge>) returns (before: seq<Charge>, after: seq<Charge>)
    requires multiset(shorter + [last]) == multiset(b)
    ensures b == before + [last] + after && multiset(before + after) == multiset(shorter)
  {
    assert multiset(shorter + [last]) == multiset(shorter) + multiset{last};
    assert last in multiset(b);
    var i :| 0 <= i < |b| && b[i] == last;
    before, after := b[..i], b[i + 1..];
    assert b == before + [last] + after;
    MembersAround(before, last, after);
    SameRest(multiset(shorter), multiset(before + after), last);
  }

  lemma SameRest(a: multiset<Charge>, b: multiset<Charge>, c: Charge)
    requires a + multiset{c} == b + multiset{c}
    ensures a == b
  {
    assert a == a + multiset{c} - multiset{c} && b == b + multiset{c} - multiset{c};
  }

  lemma {:induction false} TotalIgnoresOrder(a: seq<Charge>, b: seq<Charge>)
    requires multiset(a) == multiset(b)
    ensures Total(a) == Total(b)
    decreases |a|
  {
    if a == [] {
      assert |multiset(b)| == |b|;
    } else {
      var shorter, last := a[..|a| - 1], a[|a| - 1];
      assert a == shorter + [last];
      var before, after := LastOccurs(shorter, last, b);
      TotalIgnoresOrder(shorter, before + after);
      TotalAround(before, last, after);
    }
  }

  /** The reservations of a campaign that have no terminal row. */
  function OpenCharges(entries: seq<Row>, resolved: set<string>): seq<Charge> {
    if entries == [] then []
    else
      var last := entries[|entries| - 1];
      OpenCharges(entries[..|entries| - 1], resolved)
      + if last.ReservationRow? && last.id !in resolved then [Charge(last.id, last.amount)] else []
  }

  /** The terminal rows of a campaign. */
  function EndCharges(entries: seq<Row>): seq<Charge> {
    if entries == [] then []
    else
      var last := entries[|entries| - 1];
      EndCharges(entries[..|entries| - 1]) + if last.TerminalRow? then [Charge(last.reservationId, last.amount)] else []
  }

  lemma {:induction false} OpenChargesAddUp(entries: seq<Row>, resolved: set<string>)
    ensures Total(OpenCharges(entries, resolved)) == Outstanding(entries, resolved, None)
  {
    if entries != [] {
      var shorter, last := entries[..|entries| - 1], entries[|entries| - 1];
      OpenChargesAddUp(shorter, resolved);
      if last.ReservationRow? && last.id !in resolved {
        TotalJoins(OpenCharges(shorter, resolved), [Charge(last.id, last.amount)]);
        TotalOfOne(Charge(last.id, last.amount));
      } else {
        assert OpenCharges(entries, resolved) == OpenCharges(shorter, resolved);
      }
    }
  }

  lemma {:induction false} EndChargesAddUp(entries: seq<Row>, all: seq<Row>)
    ensures Total(EndCharges(entries)) == Settled(entries, all, None)
  {
    if entries != [] {
      var shorter, last := entries[..|entries| - 1], entries[|entries| - 1];
      EndChargesAddUp(shorter, all);
      if last.TerminalRow? {
        TotalJoins(EndCharges(shorter), [Charge(last.reservationId, last.amount)]);
        TotalOfOne(Charge(last.reservationId, last.amount));
      } else {
        assert EndCharges(entries) == EndCharges(shorter);
      }
    }
  }

  lemma {:induction false} OpenChargeIsReservation(entries: seq<Row>, resolved: set<string>, c: Charge)
    ensures c in OpenCharges(entries, resolved)
            <==> exists r :: r in entries && r.ReservationRow? && r.id !in resolved && c == Charge(r.id, r.amount)
  {
    if entries != [] {
      var shorter, last := entries[..|entries| - 1], entries[|entries| - 1];
      OpenChargeIsReservation(shorter, resolved, c);
      assert entries == shorter + [last];
    }
  }

  lemma {:induction false} EndChargeIsTerminal(entries: seq<Row>, c: Charge)
    ensures c in EndCharges(entries)
            <==> exists x :: x in entries && x.TerminalRow? && c == Charge(x.reservationId, x.amount)
  {
    if entries != [] {
      var shorter, last := entries[..|entries| - 1], entries[|entries| - 1];
      EndChargeIsTerminal(shorter, c);
      assert entries == shorter + [last];
    }
  }

  /** No two charges are of one reservation. */
  ghost predicate OnceEach(charges: seq<Charge>) {
    forall i, j :: 0 <= i < j < |charges| ==> charges[i].reservationId != charges[j].reservationId
  }

  lemma OnceEachHasNoRepeats(charges: seq<Charge>)
    requires OnceEach(charges)
    ensures NoRepeats(charges)
  {
  }

  lemma OnceEachJoins(a: seq<Charge>, b: seq<Charge>)
    requires OnceEach(a) && OnceEach(b)
    requires forall x, y :: x in a && y in b ==> x.reservationId != y.reservationId
    ensures OnceEach(a + b)
  {
    forall i, j | 0 <= i < j < |a + b| ensures (a + b)[i].reservationId != (a + b)[j].reservationId {
      if i < |a| <= j {
        assert a[i] in a && b[j - |a|] in b;
      }
    }
  }

  lemma {:induction false} OpenChargesOnceEach(entries: seq<Row>, resolved: set<string>)
    requires Distinct(entries)
    ensures OnceEach(OpenCharges(entries, resolved))
  {
    if entries != [] {
      var shorter, last := entries[..|entries| - 1], entries[|entries| - 1];
      OpenChargesOnceEach(shorter, resolved);
      forall c | c in OpenCharges(shorter, resolved) ensures c.reservationId != last.id {
        OpenChargeIsReservation(shorter, resolved, c);
      }
    }
  }

  lemma {:induction false} EndChargesOnceEach(entries: seq<Row>)
    requires forall i, j :: 0 <= i < j < |entries| && entries[i].TerminalRow? && entries[j].TerminalRow? ==>
               entries[i].reservationId != entries[j].reservationId
    ensures OnceEach(EndCharges(entries))
  {
    if entries != [] {
      var shorter, last := entries[..|entries| - 1], entries[|entries| - 1];
      EndChargesOnceEach(shorter);
      if last.TerminalRow? {
        forall c | c in EndCharges(shorter) ensures c.reservationId != last.reservationId {
          EndChargeIsTerminal(shorter, c);
        }
      }
    }
  }

  // ----- The same money in the event log

  /** The sessions a log speaks of, each once. */
  function SessionsOf(log: seq<StoredEvent>): seq<string> {
    if log == [] then []
    else
      var before := SessionsOf(log[..|log| - 1]);
      before + if log[|log| - 1].sessionId in before then [] else [log[|log| - 1].sessionId]
  }

  /** What a paid attempt costs its campaign: its finish's cost, or what its decision projected while it is open. */
  function ChargeOf(s: SessionState, a: Attempt, campaignId: string): seq<Charge> {
    var d := FindDecision(s.decisions, a.start.decisionId);
    if a.start.reservationId.None? || d.None? || d.value.campaignId != Some(campaignId) || d.value.billing.None? then []
    else [Charge(a.start.reservationId.value, if a.finished.Some? then a.finished.value.finish.cost.amount else d.value.billing.value.projected)]
  }

  function ChargesOf(s: SessionState, attempts: seq<Attempt>, campaignId: string): seq<Charge> {
    if attempts == [] then []
    else ChargesOf(s, attempts[..|attempts| - 1], campaignId) + ChargeOf(s, attempts[|attempts| - 1], campaignId)
  }

  function LogCharges(t: Tables, sessions: seq<string>, campaignId: string): seq<Charge> {
    if sessions == [] then []
    else
      var state := StateOf(t, sessions[|sessions| - 1]);
      LogCharges(t, sessions[..|sessions| - 1], campaignId)
      + if state.None? then [] else ChargesOf(state.value, state.value.attempts, campaignId)
  }

  lemma {:induction false} SessionsAreListed(log: seq<StoredEvent>, session: string)
    ensures session in SessionsOf(log) <==> exists e :: e in log && e.sessionId == session
    ensures NoRepeats(SessionsOf(log))
  {
    if log != [] {
      var shorter, last := log[..|log| - 1], log[|log| - 1];
      SessionsAreListed(shorter, session);
      assert log == shorter + [last];
    }
  }

  lemma {:induction false} ChargeIsAttempt(s: SessionState, attempts: seq<Attempt>, campaignId: string, c: Charge)
    ensures c in ChargesOf(s, attempts, campaignId) <==> exists a :: a in attempts && c in ChargeOf(s, a, campaignId)
  {
    hide ChargeOf;
    if attempts != [] {
      var shorter, last := attempts[..|attempts| - 1], attempts[|attempts| - 1];
      ChargeIsAttempt(s, shorter, campaignId, c);
      assert attempts == shorter + [last];
    }
  }

  /** The attempt `k` of a session is charged `c`. */
  ghost predicate Charged(t: Tables, session: string, k: nat, campaignId: string, c: Charge) {
    && StateOf(t, session).Some? && k < |StateOf(t, session).value.attempts|
    && c in ChargeOf(StateOf(t, session).value, StateOf(t, session).value.attempts[k], campaignId)
  }

  lemma {:induction false} LogChargeIsAttempt(t: Tables, sessions: seq<string>, campaignId: string, c: Charge)
    ensures c in LogCharges(t, sessions, campaignId)
            <==> exists session, k: nat :: session in sessions && Charged(t, session, k, campaignId, c)
  {
    hide ChargeOf, ChargesOf, StateOf;
    if sessions != [] {
      var shorter, last := sessions[..|sessions| - 1], sessions[|sessions| - 1];
      LogChargeIsAttempt(t, shorter, campaignId, c);
      assert sessions == shorter + [last];
      SessionChargeIsAttempt(t, last, campaignId, c);
      if session, k: nat :| session in sessions && Charged(t, session, k, campaignId, c) {
        assert session in shorter || session == last;
      }
    }
  }

  lemma SessionChargeIsAttempt(t: Tables, session: string, campaignId: string, c: Charge)
    ensures (exists k: nat :: Charged(t, session, k, campaignId, c))
            <==> StateOf(t, session).Some?
                 && c in ChargesOf(StateOf(t, session).value, StateOf(t, session).value.attempts, campaignId)
  {
    hide ChargeOf, ChargesOf, StateOf;
    if StateOf(t, session).Some? {
      var s := StateOf(t, session).value;
      ChargeIsAttempt(s, s.attempts, campaignId, c);
      if a :| a in s.attempts && c in ChargeOf(s, a, campaignId) {
        var k :| 0 <= k < |s.attempts| && s.attempts[k] == a;
        assert Charged(t, session, k, campaignId, c);
      }
    }
  }

  // ----- Both sides list the same charges

  lemma {:induction false} ChargesOnceEach(s: SessionState, attempts: seq<Attempt>, campaignId: string)
    requires forall j, k :: 0 <= j < k < |attempts| && attempts[k].start.reservationId.Some? ==>
               attempts[j].start.reservationId != attempts[k].start.reservationId
    ensures OnceEach(ChargesOf(s, attempts, campaignId))
  {
    hide FindDecision;
    if attempts != [] {
      var shorter, last := attempts[..|attempts| - 1], attempts[|attempts| - 1];
      ChargesOnceEach(s, shorter, campaignId);
      forall x, y | x in ChargesOf(s, shorter, campaignId) && y in ChargeOf(s, last, campaignId)
        ensures x.reservationId != y.reservationId
      {
        ChargeIsAttempt(s, shorter, campaignId, x);
        var a :| a in shorter && x in ChargeOf(s, a, campaignId);
        var j :| 0 <= j < |shorter| && shorter[j] == a;
      }
      OnceEachJoins(ChargesOf(s, shorter, campaignId), ChargeOf(s, last, campaignId));
    }
  }

  /** The reservation, and the terminal row if the attempt is finished, that a charge of the log stands for. */
  lemma ChargeIsRow(t: Tables, session: string, k: nat, campaignId: string, c: Charge) returns (r: Row)
    requires Reconciled(t) && Charged(t, session, k, campaignId, c)
    ensures r in t.rows && r.ReservationRow? && r.id == c.reservationId && r.campaignId == campaignId && r.sessionId == session
    ensures FindReservation(t.rows, c.reservationId) == Some(r)
    ensures StateOf(t, session).value.attempts[k].start.reservationId == Some(c.reservationId)
    ensures if StateOf(t, session).value.attempts[k].finished.None?
            then c.amount == r.amount && forall x :: x in t.rows && x.TerminalRow? ==> x.reservationId != r.id
            else exists x :: x in t.rows && x.TerminalRow? && x.reservationId == r.id && x.campaignId == campaignId && x.amount == c.amount
  {
    var s := StateOf(t, session).value;
    var a := s.attempts[k];
    PaidSessionIsReconciled(t, session, k);
    MatchedStartReserves(t.rows, s, a);
    MatchedEnd(t.rows, s, a);
    StateIsOfSession(t, session);
    hide AttemptReconciled, Reconciled, Find, FindDecision, FindTerminal, StateOf, IsAdmitted, Authorises, SaysOverrun, IsHostPrice;
    r := FindReservation(t.rows, a.start.reservationId.value).value;
    if a.finished.Some? {
      var x := FindTerminal(t.rows, r.id).value;
      assert x in t.rows && Repeats(x, s, a.finished.value, r);
    }
  }

  /** Every reservation is a charge of the log: the cost of its finish, or what its decision projected. */
  lemma ReservationIsCharged(t: Tables, r: Row) returns (k: nat, c: Charge)
    requires Reconciled(t) && Distinct(t.rows) && r in t.rows && r.ReservationRow?
    ensures Charged(t, r.sessionId, k, r.campaignId, c) && c.reservationId == r.id
    ensures if StateOf(t, r.sessionId).value.attempts[k].finished.None?
            then c.amount == r.amount && forall x :: x in t.rows && x.TerminalRow? ==> x.reservationId != r.id
            else exists x :: x in t.rows && x.TerminalRow? && x.reservationId == r.id && x.campaignId == r.campaignId && x.amount == c.amount
  {
    var i :| 0 <= i < |t.rows| && t.rows[i] == r;
    assert PaysFor(t, t.rows[i].sessionId, t.rows[i].id);
    k :| 0 <= k < |StateOf(t, r.sessionId).value.attempts|
         && StateOf(t, r.sessionId).value.attempts[k].start.reservationId == Some(r.id);
    var s := StateOf(t, r.sessionId).value;
    var a := s.attempts[k];
    PaidSessionIsReconciled(t, r.sessionId, k);
    MatchedStartReserves(t.rows, s, a);
    FindOfMember(t.rows, r);
    hide AttemptReconciled, Reconciled, Find, FindDecision, StateOf, IsAdmitted, Authorises;
    c := ChargeOf(s, a, r.campaignId)[0];
    var _ := ChargeIsRow(t, r.sessionId, k, r.campaignId, c);
  }

  lemma {:induction false} LogChargesOnceEach(t: Tables, sessions: seq<string>, campaignId: string)
    requires Reconciled(t) && NoRepeats(sessions)
    ensures OnceEach(LogCharges(t, sessions, campaignId))
  {
    hide Reconciled, StateOf, ChargeOf;
    if sessions != [] {
      var shorter, last := sessions[..|sessions| - 1], sessions[|sessions| - 1];
      LogChargesOnceEach(t, shorter, campaignId);
      if StateOf(t, last).Some? {
        var s := StateOf(t, last).value;
        var later := ChargesOf(s, s.attempts, campaignId);
        SessionChargesOnceEach(t, last, campaignId);
        forall x, y | x in LogCharges(t, shorter, campaignId) && y in later ensures x.reservationId != y.reservationId {
          LogChargeIsAttempt(t, shorter, campaignId, x);
          var session, j: nat :| session in shorter && Charged(t, session, j, campaignId, x);
          SessionChargeIsAttempt(t, last, campaignId, y);
          var k: nat :| Charged(t, last, k, campaignId, y);
          var r := ChargeIsRow(t, session, j, campaignId, x);
          var r' := ChargeIsRow(t, last, k, campaignId, y);
        }
        OnceEachJoins(LogCharges(t, shorter, campaignId), later);
      }
    }
  }

  lemma SessionChargesOnceEach(t: Tables, session: string, campaignId: string)
    requires Reconciled(t) && StateOf(t, session).Some?
    ensures OnceEach(ChargesOf(StateOf(t, session).value, StateOf(t, session).value.attempts, campaignId))
  {
    hide RowsReconciled, AttemptReconciled, PaysFor, StateOf, ChargesOf, OnceEach;
    var s := StateOf(t, session).value;
    forall j, k | 0 <= j < k < |s.attempts| && s.attempts[k].start.reservationId.Some?
      ensures s.attempts[j].start.reservationId != s.attempts[k].start.reservationId
    {
      PaidSessionIsReconciled(t, session, k);
    }
    ChargesOnceEach(s, s.attempts, campaignId);
  }

  /** The charges of a campaign's rows: its open reservations, and its terminal rows. */
  function CampaignCharges(rows: seq<Row>, campaignId: string): seq<Charge> {
    var entries := EntriesOf(rows, campaignId);
    OpenCharges(entries, ResolvedIds(entries)) + EndCharges(entries)
  }

  lemma ChargedSessionIsListed(t: Tables, session: string, k: nat, campaignId: string, c: Charge)
    requires Charged(t, session, k, campaignId, c)
    ensures session in SessionsOf(t.log)
  {
    hide ChargeOf;
    SessionsAreListed(t.log, session);
    var events := EventsOf(t.log, session);
    assert events != [];
    EventIsLogged(t.log, session, events[0]);
  }

  /** The reservation behind a charge of a campaign's rows. */
  lemma RowOfCharge(t: Tables, campaignId: string, c: Charge) returns (r: Row)
    requires Reconciled(t) && Distinct(t.rows) && c in CampaignCharges(t.rows, campaignId)
    ensures r in t.rows && r.ReservationRow? && r.id == c.reservationId && r.campaignId == campaignId
    ensures (r.amount == c.amount && r.id !in ResolvedIds(EntriesOf(t.rows, campaignId)))
            || exists x :: x in EntriesOf(t.rows, campaignId) && x.TerminalRow? && x.reservationId == r.id && x.amount == c.amount
  {
    var entries := EntriesOf(t.rows, campaignId);
    OpenChargeIsReservation(entries, ResolvedIds(entries), c);
    EndChargeIsTerminal(entries, c);
    if c in OpenCharges(entries, ResolvedIds(entries)) {
      hide Reconciled;
      r :| r in entries && r.ReservationRow? && r.id !in ResolvedIds(entries) && c == Charge(r.id, r.amount);
    } else {
      var x :| x in entries && x.TerminalRow? && c == Charge(x.reservationId, x.amount);
      var i :| 0 <= i < |t.rows| && t.rows[i] == x;
      r := FindReservation(t.rows, x.reservationId).value;
      hide Find;
      var k, d := ReservationIsCharged(t, r);
      hide Reconciled, StateOf, Charged;
      var y :| y in t.rows && y.TerminalRow? && y.reservationId == r.id && y.campaignId == r.campaignId && y.amount == d.amount;
      OneTerminal(t.rows, x, y);
    }
  }

  lemma OneTerminal(rows: seq<Row>, x: Row, y: Row)
    requires RowsReconciled(rows) && x in rows && y in rows && x.TerminalRow? && y.TerminalRow? && x.reservationId == y.reservationId
    ensures x == y
  {
    hide ProjectionHolds, Find;
    var i :| 0 <= i < |rows| && rows[i] == x;
    var j :| 0 <= j < |rows| && rows[j] == y;
  }

  lemma SameAmount(t: Tables, c: Charge, r: Row, open: bool, d: Charge)
    requires RowsReconciled(t.rows) && r.ReservationRow?
    requires (r.amount == c.amount && r.id !in ResolvedIds(EntriesOf(t.rows, r.campaignId)))
             || exists x :: x in EntriesOf(t.rows, r.campaignId) && x.TerminalRow? && x.reservationId == r.id && x.amount == c.amount
    requires if open then d.amount == r.amount && forall x :: x in t.rows && x.TerminalRow? ==> x.reservationId != r.id
             else exists x :: x in t.rows && x.TerminalRow? && x.reservationId == r.id && x.campaignId == r.campaignId && x.amount == d.amount
    ensures c.amount == d.amount
  {
    hide RowsReconciled;
    if !open {
      var y :| y in t.rows && y.TerminalRow? && y.reservationId == r.id && y.campaignId == r.campaignId && y.amount == d.amount;
      EntryIffRow(t.rows, r.campaignId, y);
      if x :| x in EntriesOf(t.rows, r.campaignId) && x.TerminalRow? && x.reservationId == r.id && x.amount == c.amount {
        OneTerminal(t.rows, x, y);
      }
    }
  }

  lemma RowChargeIsLogged(t: Tables, campaignId: string, c: Charge)
    requires Reconciled(t) && Distinct(t.rows) && c in CampaignCharges(t.rows, campaignId)
    ensures c in LogCharges(t, SessionsOf(t.log), campaignId)
  {
    var r := RowOfCharge(t, campaignId, c);
    var k, d := ReservationIsCharged(t, r);
    assert RowsReconciled(t.rows);
    hide Reconciled, RowsReconciled, StateOf, ChargeOf, CampaignCharges, LogCharges;
    ChargedSessionIsListed(t, r.sessionId, k, campaignId, d);
    LogChargeIsAttempt(t, SessionsOf(t.log), campaignId, d);
    SameAmount(t, c, r, StateOf(t, r.sessionId).value.attempts[k].finished.None?, d);
    assert c == d;
  }

  lemma LoggedChargeIsRow(t: Tables, campaignId: string, c: Charge)
    requires Reconciled(t) && c in LogCharges(t, SessionsOf(t.log), campaignId)
    ensures c in CampaignCharges(t.rows, campaignId)
  {
    LogChargeIsAttempt(t, SessionsOf(t.log), campaignId, c);
    var session, k: nat :| session in SessionsOf(t.log) && Charged(t, session, k, campaignId, c);
    var r := ChargeIsRow(t, session, k, campaignId, c);
    var entries := EntriesOf(t.rows, campaignId);
    EntryIffRow(t.rows, campaignId, r);
    OpenChargeIsReservation(entries, ResolvedIds(entries), c);
    EndChargeIsTerminal(entries, c);
    hide Reconciled, StateOf, ChargeOf, LogCharges, Find;
    if StateOf(t, session).value.attempts[k].finished.None? {
      assert c == Charge(r.id, r.amount);
    } else {
      var x :| x in t.rows && x.TerminalRow? && x.reservationId == r.id && x.campaignId == campaignId && x.amount == c.amount;
      EntryIffRow(t.rows, campaignId, x);
      assert c == Charge(x.reservationId, x.amount);
    }
  }

  lemma CampaignChargesOnceEach(rows: seq<Row>, campaignId: string)
    requires RowsReconciled(rows) && Distinct(rows)
    ensures OnceEach(CampaignCharges(rows, campaignId))
  {
    hide RowsReconciled;
    var entries := EntriesOf(rows, campaignId);
    EntriesDistinct(rows, campaignId);
    OpenChargesOnceEach(entries, ResolvedIds(entries));
    forall i, j | 0 <= i < j < |entries| && entries[i].TerminalRow? && entries[j].TerminalRow?
      ensures entries[i].reservationId != entries[j].reservationId
    {
      if entries[i].reservationId == entries[j].reservationId {
        OneTerminal(rows, entries[i], entries[j]);
      }
    }
    EndChargesOnceEach(entries);
    forall x, y | x in OpenCharges(entries, ResolvedIds(entries)) && y in EndCharges(entries)
      ensures x.reservationId != y.reservationId
    {
      OpenChargeIsReservation(entries, ResolvedIds(entries), x);
      EndChargeIsTerminal(entries, y);
    }
    OnceEachJoins(OpenCharges(entries, ResolvedIds(entries)), EndCharges(entries));
  }

  /**
   * When the gate accepts, a campaign's exposure is its opening exposure and, for each paid attempt that the event log
   * replays for it, the cost of its finish, or what its decision projected while it is open: nothing else, and nothing
   * twice.
   */
  lemma ExposureIsLogged(t: Tables, campaignId: string, opening: nat)
    requires Reconciled(t) && Distinct(t.rows)
    ensures Exposure(opening, EntriesOf(t.rows, campaignId))
            == opening + Total(LogCharges(t, SessionsOf(t.log), campaignId))
  {
    var entries := EntriesOf(t.rows, campaignId);
    OpenChargesAddUp(entries, ResolvedIds(entries));
    EndChargesAddUp(entries, entries);
    TotalJoins(OpenCharges(entries, ResolvedIds(entries)), EndCharges(entries));
    var ledger, log := CampaignCharges(t.rows, campaignId), LogCharges(t, SessionsOf(t.log), campaignId);
    CampaignChargesOnceEach(t.rows, campaignId);
    SessionsAreListed(t.log, "");
    LogChargesOnceEach(t, SessionsOf(t.log), campaignId);
    OnceEachHasNoRepeats(ledger);
    OnceEachHasNoRepeats(log);
    forall c ensures c in ledger <==> c in log {
      if c in ledger {
        RowChargeIsLogged(t, campaignId, c);
      }
      if c in log {
        LoggedChargeIsRow(t, campaignId, c);
      }
    }
    SameMembersPermute(ledger, log);
    TotalIgnoresOrder(ledger, log);
  }
}
