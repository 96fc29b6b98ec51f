/** What a ledger that grew through its guards looks like, and exactly when it takes one more row. */
module LedgerAudit {
  import opened Wrappers
  import opened Pricing
  import opened Ledger
  import opened LedgerTheorems

  // ----- The rows

  predicate CampaignReads(c: Row) {
    c.CampaignRow? && c.opening <= c.stop <= c.ceiling && c.ceiling > 0 && c.scope != Legacy
  }

  predicate ReservationReads(r: Row) {
    r.ReservationRow? && r.amount > 0 && r.id != r.campaignId && r.scope != Legacy && (r.scope == Simulation ==> r.admissionId.Some?)
  }

  /** A terminal row releases an unsent reservation for nothing, settles it within its amount, or overruns it. */
  predicate Ends(x: Row, r: Row) {
    && x.TerminalRow? && r.ReservationRow? && x.reservationId == r.id && x.campaignId == r.campaignId && x.scope == r.scope
    && match x.kind
       case Release => x.amount == 0 && x.disposition.NotSent? && x.provenance.None? && x.reason.Some?
       case Settlement =>
         && x.amount <= r.amount && !x.disposition.NotSent? && x.reason.None? && x.provenance.Some?
         && x.provenance.value != LocalZeroCost && (x.provenance.value == ReservedUnknown ==> x.amount == r.amount)
       case Overrun =>
         && x.amount > r.amount && !x.disposition.NotSent? && x.reason == Some("budget_overrun")
         && (x.provenance == Some(ProviderReported) || x.provenance == Some(HostPricing))
  }

  ghost predicate CampaignsLawful(rows: seq<Row>) {
    && (forall c :: c in rows && c.CampaignRow? ==> CampaignReads(c))
    && (forall i, j :: 0 <= i < j < |rows| && rows[i].CampaignRow? && rows[j].CampaignRow? ==>
          rows[i].credentialId != rows[j].credentialId)
  }

  ghost predicate ReservationsLawful(rows: seq<Row>) {
    && (forall r :: r in rows && r.ReservationRow? ==> ReservationReads(r) && exists c :: c in rows && Opens(c, r))
    && (forall i, j :: 0 <= i < j < |rows| && rows[i].ReservationRow? && rows[j].ReservationRow? ==>
          && rows[i].attemptId != rows[j].attemptId
          && (rows[j].admissionId.Some? ==> rows[i].admissionId != rows[j].admissionId))
  }

  ghost predicate TerminalsLawful(rows: seq<Row>) {
    && (forall x :: x in rows && x.TerminalRow? ==> exists r :: r in rows && Ends(x, r))
    && (forall i, j :: 0 <= i < j < |rows| && rows[i].TerminalRow? && rows[j].TerminalRow? ==>
          rows[i].reservationId != rows[j].reservationId)
  }

  ghost predicate Lawful(rows: seq<Row>) {
    && (forall i, j :: 0 <= i < j < |rows| ==> rows[i].id != rows[j].id)
    && CampaignsLawful(rows) && ReservationsLawful(rows) && TerminalsLawful(rows)
  }

  /** The campaign a reservation is of: the same provider and scope. */
  predicate Opens(c: Row, r: Row) {
    c.CampaignRow? && r.ReservationRow? && c.id == r.campaignId && c.providerId == r.providerId && c.scope == r.scope
  }

  /** What one insertion requires, of the rows before it. */
  ghost predicate Joins(rows: seq<Row>, row: Row) {
    && (forall e :: e in rows ==> e.id != row.id)
    && match row
       case CampaignRow(_, _, credential, _, _, _, _, _) =>
         CampaignReads(row) && forall e :: e in rows && e.CampaignRow? ==> e.credentialId != credential
       case ReservationRow(_, _, _, attempt, _, _, _, admission, _, _, _, _, _, _) =>
         && ReservationReads(row) && (exists c :: c in rows && Opens(c, row))
         && (forall e :: e in rows && e.ReservationRow? ==> e.attemptId != attempt && (admission.Some? ==> e.admissionId != admission))
         && (row.scope == Actual ==> forall e :: e in rows ==> e.scope != Legacy)
       case TerminalRow(_, _, campaign, reservation, _, _, _, _, _, _) =>
         && row.id != campaign && row.id != reservation
         && (exists r :: r in rows && Ends(row, r))
         && forall e :: e in rows && e.TerminalRow? ==> e.reservationId != reservation
  }

  lemma IdsOfMembers(rows: seq<Row>, id: string)
    ensures HasId(rows, id) <==> exists e :: e in rows && e.id == id
  {
    if HasId(rows, id) {
      var i :| 0 <= i < |rows| && rows[i].id == id;
      assert rows[i] in rows;
    }
  }

  lemma CampaignJoins(rows: seq<Row>, row: Row)
    requires row.CampaignRow?
    ensures Insertable(rows, row) <==> Joins(rows, row)
  {
    IdsOfMembers(rows, row.id);
    hide HasId;
    forall i | 0 <= i < |rows| ensures rows[i] in rows {
    }
  }

  lemma ReservationJoins(rows: seq<Row>, row: Row)
    requires row.ReservationRow? && Distinct(rows)
    ensures Insertable(rows, row) <==> Joins(rows, row)
  {
    IdsOfMembers(rows, row.id);
    hide HasId, Find;
    forall i | 0 <= i < |rows| ensures rows[i] in rows {
    }
    if c :| c in rows && Opens(c, row) {
      FindOfMember(rows, c);
    }
    var found := FindCampaign(rows, row.campaignId);
    if found.Some? && found.value.providerId == row.providerId && found.value.scope == row.scope {
      assert found.value in rows && Opens(found.value, row);
    }
  }

  lemma TerminalJoins(rows: seq<Row>, row: Row)
    requires row.TerminalRow? && Distinct(rows)
    ensures Insertable(rows, row) <==> Joins(rows, row)
  {
    IdsOfMembers(rows, row.id);
    hide HasId, Find;
    forall i | 0 <= i < |rows| ensures rows[i] in rows {
    }
    if r :| r in rows && Ends(row, r) {
      FindOfMember(rows, r);
    }
    var found := FindReservation(rows, row.reservationId);
    if found.Some? && TerminalFits(row, found.value) {
      assert found.value in rows && Ends(row, found.value);
    }
  }

  /** A row is admitted exactly if it joins the rows before it. */
  lemma WhenInsertable(rows: seq<Row>, row: Row)
    requires Distinct(rows)
    ensures Insertable(rows, row) <==> Joins(rows, row)
  {
    hide Insertable, Joins;
    match row
    case CampaignRow(_, _, _, _, _, _, _, _) => CampaignJoins(rows, row);
    case ReservationRow(_, _, _, _, _, _, _, _, _, _, _, _, _, _) => ReservationJoins(rows, row);
    case TerminalRow(_, _, _, _, _, _, _, _, _, _) => TerminalJoins(rows, row);
  }

  lemma LawfulIsDistinct(rows: seq<Row>)
    requires Lawful(rows)
    ensures Distinct(rows)
  {
  }

  lemma MembersOfMore(rows: seq<Row>, row: Row)
    ensures forall e :: e in rows + [row] <==> e in rows || e == row
    ensures forall i :: 0 <= i < |rows| ==> rows[i] in rows && (rows + [row])[i] == rows[i]
  {
  }

  lemma CampaignsStayLawful(rows: seq<Row>, row: Row)
    requires CampaignsLawful(rows) && Joins(rows, row)
    ensures CampaignsLawful(rows + [row])
  {
    MembersOfMore(rows, row);
    hide CampaignReads, ReservationReads, Ends, Opens;
  }

  lemma ReservationsStayLawful(rows: seq<Row>, row: Row)
    requires ReservationsLawful(rows) && Joins(rows, row)
    ensures ReservationsLawful(rows + [row])
  {
    MembersOfMore(rows, row);
    hide CampaignReads, ReservationReads, Ends, Opens;
    forall r | r in rows + [row] && r.ReservationRow? ensures exists c :: c in rows + [row] && Opens(c, r) {
      var c :| c in rows && Opens(c, r);
      assert c in rows + [row];
    }
  }

  lemma TerminalsStayLawful(rows: seq<Row>, row: Row)
    requires TerminalsLawful(rows) && Joins(rows, row)
    ensures TerminalsLawful(rows + [row])
  {
    MembersOfMore(rows, row);
    hide CampaignReads, ReservationReads, Ends, Opens;
    forall x | x in rows + [row] && x.TerminalRow? ensures exists r :: r in rows + [row] && Ends(x, r) {
      var r :| r in rows && Ends(x, r);
      assert r in rows + [row];
    }
  }

  /** A lawful ledger stays lawful with every row it admits. */
  lemma InsertKeepsLawful(rows: seq<Row>, row: Row)
    requires Lawful(rows) && Insertable(rows, row)
    ensures Lawful(rows + [row])
  {
    LawfulIsDistinct(rows);
    WhenInsertable(rows, row);
    hide Insertable, CampaignsLawful, ReservationsLawful, TerminalsLawful;
    MembersOfMore(rows, row);
    CampaignsStayLawful(rows, row);
    ReservationsStayLawful(rows, row);
    TerminalsStayLawful(rows, row);
    hide Joins;
    IdsStayDistinct(rows, row);
  }

  lemma IdsStayDistinct(rows: seq<Row>, row: Row)
    requires Distinct(rows) && Joins(rows, row)
    ensures Distinct(rows + [row])
  {
    MembersOfMore(rows, row);
    hide CampaignReads, ReservationReads, Ends, Opens;
  }

  // ----- The three operations

  /** A campaign is created exactly within safe limits, in a scope of its own time, and under a new id and credential. */
  lemma WhenCreated(rows: seq<Row>, c: CampaignInput)
    requires Distinct(rows)
    ensures CreateCampaign(rows, c).Success?
            <==> && c.opening <= c.stop <= c.ceiling <= MAX_SAFE_INTEGER && c.ceiling > 0 && c.scope != Legacy
                 && forall e :: e in rows ==> e.id != c.id && (e.CampaignRow? ==> e.credentialId != c.credentialId)
    ensures CreateCampaign(rows, c).Success? ==>
              CreateCampaign(rows, c).value
              == rows + [CampaignRow(c.id, c.providerId, c.credentialId, c.opening, c.stop, c.ceiling, c.scope, c.createdAt)]
  {
    CampaignJoins(rows, CampaignRow(c.id, c.providerId, c.credentialId, c.opening, c.stop, c.ceiling, c.scope, c.createdAt));
    hide Insertable;
  }

  /** What a resolution makes of a reservation. */
  function EndOf(input: ResolveInput, r: Row): Row
    requires r.ReservationRow?
  {
    TerminalRow(input.terminalId, input.kind, r.campaignId, r.id, r.scope, input.amount, input.provenance, input.disposition,
                input.reason, input.createdAt)
  }

  /** A reservation is resolved exactly once, by a terminal row that ends it, under a new id. */
  lemma WhenResolved(rows: seq<Row>, input: ResolveInput, r: Row)
    requires Distinct(rows) && r in rows && r.ReservationRow? && r.id == input.reservationId && r.campaignId != input.terminalId
    ensures Resolve(rows, input).Success?
            <==> && input.amount <= MAX_SAFE_INTEGER && Ends(EndOf(input, r), r)
                 && forall e :: e in rows ==> e.id != input.terminalId && (e.TerminalRow? ==> e.reservationId != r.id)
    ensures Resolve(rows, input).Success? ==> Resolve(rows, input).value == rows + [EndOf(input, r)]
  {
    FindOfMember(rows, r);
    TerminalJoins(rows, EndOf(input, r));
    EndsOnce(rows, EndOf(input, r), r);
    hide Insertable, Find;
    assert EndOf(input, r) == TerminalFor(input, r);
    forall i | 0 <= i < |rows| ensures rows[i] in rows {
    }
  }

  lemma EndsOnce(rows: seq<Row>, x: Row, r: Row)
    requires Distinct(rows) && r in rows && r.ReservationRow? && x.TerminalRow? && x.reservationId == r.id
    ensures (exists e :: e in rows && Ends(x, e)) <==> Ends(x, r)
  {
    if e :| e in rows && Ends(x, e) {
      var i :| 0 <= i < |rows| && rows[i] == e;
      var j :| 0 <= j < |rows| && rows[j] == r;
    }
  }

  /** No reservation is resolved that is not there. */
  lemma UnknownIsNotResolved(rows: seq<Row>, input: ResolveInput)
    requires forall e :: e in rows && e.ReservationRow? ==> e.id != input.reservationId
    ensures Resolve(rows, input).Failure?
  {
    hide Insertable;
  }

  /** What a reservation is refused for before its budget is looked at. */
  predicate MayReserve(rows: seq<Row>, input: ReserveInput) {
    && input.scope != Legacy && input.admissionId.Some? && ProjectWorstCase(input.projection).Success?
    && ProjectWorstCase(input.projection).value > 0
    && (exists c :: c in rows && c.CampaignRow? && c.id == input.campaignId && c.providerId == input.providerId && c.scope == input.scope)
    && (forall e :: e in rows && e.ReservationRow? ==> e.sessionId != input.sessionId)
    && (input.scope == Actual ==> forall e :: e in rows ==> e.scope != Legacy)
  }

  /** The row an admitted reservation adds. */
  function ReservedRow(input: ReserveInput, amount: nat): Row {
    var p := input.projection;
    ReservationRow(input.reservationId, input.campaignId, input.sessionId, input.attemptId, input.providerId, input.pricingId,
                   input.scope, input.admissionId, amount, p.inputTokens, p.outputTokens, p.cacheTokens,
                   Rates(p.inputRate, p.outputRate, if p.cacheRate.Some? then p.cacheRate.value else 0, p.fee), input.createdAt)
  }

  /** A reservation that is decided was one that may be, and adds exactly its row if it is admitted, and nothing if it is not. */
  lemma WhenReserved(rows: seq<Row>, input: ReserveInput)
    requires Distinct(rows) && Reserve(rows, input).Success?
    ensures MayReserve(rows, input)
    ensures var (resolution, next) := Reserve(rows, input).value;
            var amount := ProjectWorstCase(input.projection).value;
            && resolution.billing.projection == input.projection && resolution.billing.projected == amount
            && (resolution.Admitted? ==> next == rows + [ReservedRow(input, amount)] && resolution.reservation == ReservedRow(input, amount))
            && (resolution.Denied? ==> next == rows)
  {
    hide Insertable, Find, GetPosition, ProjectWorstCase;
    var found := FindCampaign(rows, input.campaignId).value;
    assert found in rows;
    forall e | e in rows && e.ReservationRow? ensures e.sessionId != input.sessionId {
      var i :| 0 <= i < |rows| && rows[i] == e;
    }
    forall e | e in rows && input.scope == Actual ensures e.scope != Legacy {
      var i :| 0 <= i < |rows| && rows[i] == e;
    }
  }
}
