/** The append-only budget ledger: the rows its schema admits, the exposure they add up to, and one reservation's life. */
module Ledger {
  import opened Wrappers
  import opened Pricing

  type Time = nat

  datatype Scope = Simulation | Actual | Legacy
  datatype Kind = Settlement | Release | Overrun
  datatype Disposition = NotSent | Sent | Unknown
  datatype Provenance = LocalZeroCost | ProviderReported | HostPricing | ReservedUnknown

  datatype Row =
    | CampaignRow(id: string, providerId: string, credentialId: string, opening: nat, stop: nat, ceiling: nat,
                  scope: Scope, createdAt: Time)
    | ReservationRow(id: string, campaignId: string, sessionId: string, attemptId: string, providerId: string,
                     pricingId: string, scope: Scope, admissionId: Option<string>, amount: nat, inputTokens: nat,
                     outputTokens: nat, cacheTokens: nat, rates: Rates, createdAt: Time)
    | TerminalRow(id: string, kind: Kind, campaignId: string, reservationId: string, scope: Scope, amount: nat,
                  provenance: Option<Provenance>, disposition: Disposition, reason: Option<string>, createdAt: Time)

  datatype LedgerError =
    | BadPrice(error: PricingError) | NotPositive | UnknownCampaign | CampaignMismatch | SessionHasReservation
    | DanglingTerminal | UnsafeExposure | ConstraintViolated | UnknownReservation | AlreadyResolved | BadResolution
    | BadCampaignLimits | EgressIdentityMissing | LegacyExposure

  // ----- What the schema lets in

  predicate HasId(rows: seq<Row>, id: string) {
    exists i :: 0 <= i < |rows| && rows[i].id == id
  }

  function Find(rows: seq<Row>, id: string): (row: Option<Row>)
    ensures row.Some? ==> row.value in rows && row.value.id == id
    ensures row.None? <==> !HasId(rows, id)
  {
    if rows == [] then None
    else if rows[0].id == id then Some(rows[0])
    else
      assert HasId(rows, id) <==> HasId(rows[1..], id) by {
        assert forall i :: 1 <= i < |rows| ==> rows[i] == rows[1..][i - 1];
      }
      Find(rows[1..], id)
  }

  function FindCampaign(rows: seq<Row>, id: string): Option<Row> {
    var row := Find(rows, id);
    if row.Some? && row.value.CampaignRow? then row else None
  }

  function FindReservation(rows: seq<Row>, id: string): Option<Row> {
    var row := Find(rows, id);
    if row.Some? && row.value.ReservationRow? then row else None
  }

  predicate IsResolved(rows: seq<Row>, reservationId: string) {
    exists i :: 0 <= i < |rows| && rows[i].TerminalRow? && rows[i].reservationId == reservationId
  }

  predicate SessionReserved(rows: seq<Row>, sessionId: string) {
    exists i :: 0 <= i < |rows| && rows[i].ReservationRow? && rows[i].sessionId == sessionId
  }

  /** The row CHECK of a terminal row, and the trigger guards against the reservation it ends. */
  predicate TerminalFits(row: Row, reservation: Row)
    requires row.TerminalRow? && reservation.ReservationRow?
  {
    && reservation.campaignId == row.campaignId && reservation.scope == row.scope
    && match row.kind
       case Settlement =>
         row.provenance.Some? && row.provenance != Some(LocalZeroCost) && !row.disposition.NotSent? && row.reason.None?
         && row.amount <= reservation.amount
         && (row.provenance == Some(ReservedUnknown) ==> row.amount == reservation.amount)
       case Release => row.amount == 0 && row.provenance.None? && row.disposition.NotSent? && row.reason.Some?
       case Overrun =>
         (row.provenance == Some(ProviderReported) || row.provenance == Some(HostPricing)) && !row.disposition.NotSent?
         && row.reason == Some("budget_overrun") && row.amount > reservation.amount
  }

  /** Primary key, row CHECKs, unique indexes and insert triggers: whether the table `rows` admits `row`. */
  predicate Insertable(rows: seq<Row>, row: Row) {
    && !HasId(rows, row.id)
    && match row
       case CampaignRow(_, _, credential, opening, stop, ceiling, scope, _) =>
         && opening <= stop <= ceiling && ceiling > 0 && !scope.Legacy?
         && (forall i :: 0 <= i < |rows| && rows[i].CampaignRow? ==> rows[i].credentialId != credential)
       case ReservationRow(id, campaignId, _, attemptId, provider, _, scope, admission, amount, _, _, _, _, _) =>
         && id != campaignId && amount > 0 && !scope.Legacy? && (scope.Simulation? ==> admission.Some?)
         && (forall i :: 0 <= i < |rows| && rows[i].ReservationRow? ==>
               rows[i].attemptId != attemptId && (admission.Some? ==> rows[i].admissionId != admission))
         && (scope.Actual? ==> forall i :: 0 <= i < |rows| ==> !rows[i].scope.Legacy?)
         && var campaign := FindCampaign(rows, campaignId);
            campaign.Some? && campaign.value.providerId == provider && campaign.value.scope == scope
       case TerminalRow(id, _, campaignId, reservationId, _, _, _, _, _, _) =>
         && id != campaignId && id != reservationId && !IsResolved(rows, reservationId)
         && var reservation := FindReservation(rows, reservationId);
            reservation.Some? && TerminalFits(row, reservation.value)
  }

  /** A table every row of which the schema admitted after the rows before it. */
  ghost predicate Guarded(rows: seq<Row>) {
    forall k :: 0 <= k < |rows| ==> Insertable(rows[..k], rows[k])
  }

  function Insert(rows: seq<Row>, row: Row): Result<seq<Row>, LedgerError> {
    var guard := Need(Insertable(rows, row), ConstraintViolated);
    :- guard;
    Success(rows + [row])
  }

  // ----- Exposure

  /** The non-campaign rows of one campaign, in table order. */
  function EntriesOf(rows: seq<Row>, campaignId: string): (entries: seq<Row>)
    ensures forall e :: e in entries ==> e in rows && !e.CampaignRow? && e.campaignId == campaignId
  {
    if rows == [] then []
    else
      var last := rows[|rows| - 1];
      EntriesOf(rows[..|rows| - 1], campaignId)
      + if !last.CampaignRow? && last.campaignId == campaignId then [last] else []
  }

  function ResolvedIds(entries: seq<Row>): set<string> {
    set e | e in entries && e.TerminalRow? :: e.reservationId
  }

  /** The reserved amounts still outstanding, of all sessions or of one. */
  function Outstanding(entries: seq<Row>, resolved: set<string>, session: Option<string>): nat {
    if entries == [] then 0
    else
      var last := entries[|entries| - 1];
      Outstanding(entries[..|entries| - 1], resolved, session)
      + if last.ReservationRow? && last.id !in resolved && (session.Some? ==> last.sessionId == session.value)
        then last.amount else 0
  }

  predicate BelongsTo(all: seq<Row>, terminal: Row, session: string)
    requires terminal.TerminalRow?
  {
    exists i :: 0 <= i < |all| && all[i].ReservationRow? && all[i].id == terminal.reservationId && all[i].sessionId == session
  }

  /** The amounts of terminal rows, of all sessions or of the reservations of one. */
  function Settled(entries: seq<Row>, all: seq<Row>, session: Option<string>): nat {
    if entries == [] then 0
    else
      var last := entries[|entries| - 1];
      Settled(entries[..|entries| - 1], all, session)
      + if last.TerminalRow? && (session.Some? ==> BelongsTo(all, last, session.value)) then last.amount else 0
  }

  /** A campaign's exposure: its opening exposure, what is outstanding and what terminal rows charged. */
  function Exposure(opening: nat, entries: seq<Row>): nat {
    opening + Outstanding(entries, ResolvedIds(entries), None) + Settled(entries, entries, None)
  }

  function EpisodeExposure(entries: seq<Row>, session: string): nat {
    Outstanding(entries, ResolvedIds(entries), Some(session)) + Settled(entries, entries, Some(session))
  }

  predicate HasOverrun(entries: seq<Row>) {
    exists i :: 0 <= i < |entries| && entries[i].TerminalRow? && entries[i].kind.Overrun?
  }

  /** What overruns charged above their reservations. */
  function Excess(entries: seq<Row>, rows: seq<Row>): int {
    if entries == [] then 0
    else
      var last := entries[|entries| - 1];
      Excess(entries[..|entries| - 1], rows)
      + if last.TerminalRow? && last.kind.Overrun? && FindReservation(rows, last.reservationId).Some?
        then last.amount - FindReservation(rows, last.reservationId).value.amount else 0
  }

  datatype Position = Position(
    episodeExposure: nat, campaignExposure: nat, remainingEpisode: nat, remainingStop: nat, remainingCeiling: nat,
    remainingCampaign: nat, disabled: bool)

  function Monus(a: nat, b: nat): nat {
    if b >= a then 0 else a - b
  }

  function PositionOf(campaign: Row, entries: seq<Row>, session: string, cap: nat): Position
    requires campaign.CampaignRow?
  {
    var exposure := Exposure(campaign.opening, entries);
    var episode := EpisodeExposure(entries, session);
    var stop, ceiling := Monus(campaign.stop, exposure), Monus(campaign.ceiling, exposure);
    Position(episode, exposure, Monus(cap, episode), stop, ceiling, if stop < ceiling then stop else ceiling, HasOverrun(entries))
  }

  /** Every terminal row of the campaign ends one of its reservations. */
  predicate Anchored(entries: seq<Row>) {
    forall i :: 0 <= i < |entries| && entries[i].TerminalRow? ==>
      exists j :: 0 <= j < |entries| && entries[j].ReservationRow? && entries[j].id == entries[i].reservationId
  }

  function GetPosition(rows: seq<Row>, campaignId: string, session: string, cap: nat): Result<Position, LedgerError> {
    var campaign := FindCampaign(rows, campaignId);
    :- Need(campaign.Some?, UnknownCampaign);
    var entries := EntriesOf(rows, campaignId);
    :- Need(Anchored(entries), DanglingTerminal);
    var position := PositionOf(campaign.value, entries, session, cap);
    :- Need(Safe(position.episodeExposure) && Safe(position.campaignExposure) && Safe(position.remainingEpisode)
            && Safe(position.remainingStop) && Safe(position.remainingCeiling), UnsafeExposure);
    Success(position)
  }

  // ----- Campaigns, reservations and their resolution

  datatype CampaignInput = CampaignInput(
    id: string, providerId: string, credentialId: string, opening: nat, stop: nat, ceiling: nat, scope: Scope, createdAt: Time)

  function CreateCampaign(rows: seq<Row>, c: CampaignInput): Result<seq<Row>, LedgerError> {
    var guard := Need(Safe(c.opening) && Safe(c.stop) && Safe(c.ceiling) && c.ceiling > 0, BadCampaignLimits);
    :- guard;
    :- Need(!c.scope.Legacy?, BadCampaignLimits);
    :- Need(c.opening <= c.stop <= c.ceiling, BadCampaignLimits);
    Insert(rows, CampaignRow(c.id, c.providerId, c.credentialId, c.opening, c.stop, c.ceiling, c.scope, c.createdAt))
  }

  datatype ReserveInput = ReserveInput(
    campaignId: string, reservationId: string, sessionId: string, attemptId: string, providerId: string, pricingId: string,
    scope: Scope, admissionId: Option<string>, cap: nat, projection: Projection, createdAt: Time)

  /** The projection a decision was billed on, with the budget left when it was taken. */
  datatype Billing = Billing(projection: Projection, projected: nat, remainingEpisode: nat, remainingCampaign: nat)

  datatype DenialReason = CampaignOverrun | EpisodeCap | CampaignHardCeiling | CampaignAutomaticStop

  datatype Resolution =
    | Admitted(billing: Billing, position: Position, reservation: Row)
    | Denied(reason: DenialReason, billing: Billing, position: Position)

  function DenialFor(projected: nat, position: Position): Option<DenialReason> {
    if position.disabled then Some(CampaignOverrun)
    else if projected > position.remainingEpisode then Some(EpisodeCap)
    else if projected > position.remainingCeiling then Some(CampaignHardCeiling)
    else if projected > position.remainingStop then Some(CampaignAutomaticStop)
    else None
  }

  function ReservationFor(input: ReserveInput, projected: nat): (row: Row)
    ensures row.ReservationRow? && row.id == input.reservationId && row.campaignId == input.campaignId
  {
    var p := input.projection;
    ReservationRow(input.reservationId, input.campaignId, input.sessionId, input.attemptId, input.providerId, input.pricingId,
                   input.scope, input.admissionId, projected, p.inputTokens, p.outputTokens, p.cacheTokens, RatesOf(p),
                   input.createdAt)
  }

  function Priced(p: Projection): Result<nat, LedgerError> {
    match ProjectWorstCase(p)
    case Success(cost) => Success(cost)
    case Failure(error) => Failure(BadPrice(error))
  }

  function Reserve(rows: seq<Row>, input: ReserveInput): Result<(Resolution, seq<Row>), LedgerError> {
    var guard := Need(!input.scope.Legacy?, CampaignMismatch);
    :- guard;
    :- Need(input.admissionId.Some?, EgressIdentityMissing);
    var projected :- Priced(input.projection);
    :- Need(projected > 0, NotPositive);
    var campaign := FindCampaign(rows, input.campaignId);
    :- Need(campaign.Some?, UnknownCampaign);
    :- Need(campaign.value.providerId == input.providerId && campaign.value.scope == input.scope, CampaignMismatch);
    :- Need(input.scope.Actual? ==> forall i :: 0 <= i < |rows| ==> !rows[i].scope.Legacy?, LegacyExposure);
    :- Need(!SessionReserved(rows, input.sessionId), SessionHasReservation);
    var position :- GetPosition(rows, input.campaignId, input.sessionId, input.cap);
    var billing := Billing(input.projection, projected, position.remainingEpisode, position.remainingCampaign);
    var denial := DenialFor(projected, position);
    if denial.Some? then Success((Denied(denial.value, billing, position), rows))
    else
      var row := ReservationFor(input, projected);
      var next :- Insert(rows, row);
      Success((Admitted(billing, position, row), next))
  }

  datatype ResolveInput = ResolveInput(
    terminalId: string, reservationId: string, kind: Kind, amount: nat, provenance: Option<Provenance>,
    disposition: Disposition, reason: Option<string>, createdAt: Time)

  function TerminalFor(input: ResolveInput, reservation: Row): (row: Row)
    requires reservation.ReservationRow?
    ensures row.TerminalRow? && row.reservationId == input.reservationId && row.campaignId == reservation.campaignId
  {
    TerminalRow(input.terminalId, input.kind, reservation.campaignId, input.reservationId, reservation.scope, input.amount,
                input.provenance, input.disposition, input.reason, input.createdAt)
  }

  /** The checks `resolve` makes before it inserts. */
  predicate ResolutionFits(input: ResolveInput, reservation: Row)
    requires reservation.ReservationRow?
  {
    if input.kind.Release? then
      input.amount == 0 && input.disposition.NotSent? && input.provenance.None? && input.reason.Some?
    else
      && !input.disposition.NotSent? && input.provenance.Some?
      && input.reason == (if input.kind.Overrun? then Some("budget_overrun") else None)
      && (input.kind.Settlement? ==> input.amount <= reservation.amount)
      && (input.kind.Overrun? ==> input.amount > reservation.amount)
      && (input.provenance == Some(ReservedUnknown) ==> input.amount == reservation.amount)
  }

  function Resolve(rows: seq<Row>, input: ResolveInput): Result<seq<Row>, LedgerError> {
    var guard := Need(Safe(input.amount), BadResolution);
    :- guard;
    var reservation := FindReservation(rows, input.reservationId);
    :- Need(reservation.Some?, UnknownReservation);
    :- Need(!IsResolved(rows, input.reservationId), AlreadyResolved);
    :- Need(ResolutionFits(input, reservation.value), BadResolution);
    Insert(rows, TerminalFor(input, reservation.value))
  }
}
