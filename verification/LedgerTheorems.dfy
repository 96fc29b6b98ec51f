/** What the schema and the reservation rules promise about a campaign's money. */
module LedgerTheorems {
  import opened Wrappers
  import opened Pricing
  import opened Ledger

  // ----- Tables the schema admits

  ghost predicate Distinct(rows: seq<Row>) {
    forall i, j :: 0 <= i < j < |rows| ==> rows[i].id != rows[j].id
  }

  /** Every terminal row ends an earlier reservation of its campaign, and no other row ends the same one. */
  ghost predicate TerminalsLinked(rows: seq<Row>) {
    && (forall i :: 0 <= i < |rows| && rows[i].TerminalRow? ==>
          FindReservation(rows, rows[i].reservationId).Some?
          && TerminalFits(rows[i], FindReservation(rows, rows[i].reservationId).value))
    && (forall i, j :: 0 <= i < j < |rows| && rows[i].TerminalRow? && rows[j].TerminalRow? ==>
          rows[i].reservationId != rows[j].reservationId)
  }

  /** Every reservation belongs to a campaign of its provider and scope; attempts and admissions are reserved once. */
  ghost predicate ReservationsLinked(rows: seq<Row>) {
    && (forall i :: 0 <= i < |rows| && rows[i].ReservationRow? ==>
          && rows[i].amount > 0 && FindCampaign(rows, rows[i].campaignId).Some?
          && FindCampaign(rows, rows[i].campaignId).value.providerId == rows[i].providerId
          && FindCampaign(rows, rows[i].campaignId).value.scope == rows[i].scope)
    && (forall i, j :: 0 <= i < j < |rows| && rows[i].ReservationRow? && rows[j].ReservationRow? ==>
          rows[i].attemptId != rows[j].attemptId)
  }

  ghost predicate CampaignsLimited(rows: seq<Row>) {
    forall i :: 0 <= i < |rows| && rows[i].CampaignRow? ==> rows[i].opening <= rows[i].stop <= rows[i].ceiling
  }

  ghost predicate Linked(rows: seq<Row>) {
    Distinct(rows) && TerminalsLinked(rows) && ReservationsLinked(rows) && CampaignsLimited(rows)
  }

  lemma FindInExtension(rows: seq<Row>, row: Row, id: string)
    ensures Find(rows + [row], id)
            == if Find(rows, id).Some? then Find(rows, id) else if row.id == id then Some(row) else None
  {
    if rows == [] {
      assert [row][1..] == [];
    } else {
      assert (rows + [row])[1..] == rows[1..] + [row];
      FindInExtension(rows[1..], row, id);
    }
  }

  lemma FindStays(rows: seq<Row>, row: Row)
    requires !HasId(rows, row.id)
    ensures forall id :: Find(rows, id).Some? ==> Find(rows + [row], id) == Find(rows, id)
    ensures Find(rows + [row], row.id) == Some(row)
  {
    forall id ensures Find(rows, id).Some? ==> Find(rows + [row], id) == Find(rows, id) {
      FindInExtension(rows, row, id);
    }
    FindInExtension(rows, row, row.id);
  }

  lemma DistinctExtends(rows: seq<Row>, row: Row)
    requires Distinct(rows) && !HasId(rows, row.id)
    ensures Distinct(rows + [row])
  {
    forall i | 0 <= i < |rows| ensures rows[i].id != row.id {
    }
  }

  lemma InsertKeepsLinked(rows: seq<Row>, row: Row)
    requires Linked(rows) && Insertable(rows, row)
    ensures Linked(rows + [row])
  {
    hide TerminalFits, Find;
    FindStays(rows, row);
    DistinctExtends(rows, row);
    var next := rows + [row];
    assert next[|rows|] == row && forall i :: 0 <= i < |rows| ==> next[i] == rows[i];
    InsertKeepsTerminals(rows, row);
  }

  lemma InsertKeepsTerminals(rows: seq<Row>, row: Row)
    requires Linked(rows) && Insertable(rows, row)
    ensures TerminalsLinked(rows + [row])
  {
    hide TerminalFits, Find, Distinct, ReservationsLinked;
    FindStays(rows, row);
    var next := rows + [row];
    forall i | 0 <= i < |rows| && rows[i].TerminalRow? && row.TerminalRow?
      ensures rows[i].reservationId != row.reservationId
    {
      assert IsResolved(rows, rows[i].reservationId);
    }
  }

  lemma {:induction false} GuardedIsLinked(rows: seq<Row>)
    requires Guarded(rows)
    ensures Linked(rows)
  {
    if rows != [] {
      var shorter, last := rows[..|rows| - 1], rows[|rows| - 1];
      forall k | 0 <= k < |shorter| ensures Insertable(shorter[..k], shorter[k]) {
        assert shorter[..k] == rows[..k];
      }
      GuardedIsLinked(shorter);
      assert rows == shorter + [last];
      InsertKeepsLinked(shorter, last);
    }
  }

  lemma InsertKeepsGuarded(rows: seq<Row>, row: Row)
    requires Guarded(rows) && Insertable(rows, row)
    ensures Guarded(rows + [row])
  {
    hide Insertable;
    var next := rows + [row];
    forall k | 0 <= k < |next| ensures Insertable(next[..k], next[k]) {
      if k < |rows| {
        assert next[..k] == rows[..k];
      } else {
        assert next[..k] == rows;
      }
    }
  }

  // ----- One campaign's entries

  lemma EntriesExtend(rows: seq<Row>, row: Row, campaignId: string)
    ensures EntriesOf(rows + [row], campaignId)
            == EntriesOf(rows, campaignId) + (if !row.CampaignRow? && row.campaignId == campaignId then [row] else [])
  {
    assert (rows + [row])[..|rows|] == rows;
  }

  lemma {:induction false} EntryIffRow(rows: seq<Row>, campaignId: string, row: Row)
    ensures row in EntriesOf(rows, campaignId) <==> row in rows && !row.CampaignRow? && row.campaignId == campaignId
  {
    if rows != [] {
      EntryIffRow(rows[..|rows| - 1], campaignId, row);
      assert rows == rows[..|rows| - 1] + [rows[|rows| - 1]];
    }
  }

  lemma {:induction false} EntriesDistinct(rows: seq<Row>, campaignId: string)
    requires Distinct(rows)
    ensures Distinct(EntriesOf(rows, campaignId))
  {
    if rows != [] {
      var shorter, last := rows[..|rows| - 1], rows[|rows| - 1];
      EntriesDistinct(shorter, campaignId);
      var entries := EntriesOf(shorter, campaignId);
      forall i | 0 <= i < |entries| ensures entries[i].id != last.id {
        assert entries[i] in shorter;
      }
    }
  }

  lemma {:induction false} FindOfMember(rows: seq<Row>, row: Row)
    requires Distinct(rows) && row in rows
    ensures Find(rows, row.id) == Some(row)
  {
    if rows[0] != row {
      assert row in rows[1..];
      FindOfMember(rows[1..], row);
      var i :| 0 <= i < |rows[1..]| && rows[1..][i] == row;
      assert rows[i + 1] == row;
    }
  }

  lemma LinkedIsAnchored(rows: seq<Row>, campaignId: string)
    requires Linked(rows)
    ensures Anchored(EntriesOf(rows, campaignId))
  {
    hide Find;
    var entries := EntriesOf(rows, campaignId);
    forall i | 0 <= i < |entries| && entries[i].TerminalRow?
      ensures exists j :: 0 <= j < |entries| && entries[j].ReservationRow? && entries[j].id == entries[i].reservationId
    {
      assert entries[i] in rows;
      var reservation := FindReservation(rows, entries[i].reservationId).value;
      assert TerminalFits(entries[i], reservation);
      EntryIffRow(rows, campaignId, reservation);
    }
  }

  // ----- How an insertion moves the exposure

  /** The amount reserved under `id`. */
  function Held(entries: seq<Row>, id: string): nat {
    if entries == [] then 0
    else
      var last := entries[|entries| - 1];
      Held(entries[..|entries| - 1], id) + if last.ReservationRow? && last.id == id then last.amount else 0
  }

  lemma {:induction false} OutstandingDrops(entries: seq<Row>, resolved: set<string>, id: string)
    requires id !in resolved
    ensures Outstanding(entries, resolved + {id}, None) + Held(entries, id) == Outstanding(entries, resolved, None)
  {
    if entries != [] {
      OutstandingDrops(entries[..|entries| - 1], resolved, id);
    }
  }

  lemma {:induction false} HeldIsAmount(entries: seq<Row>, reservation: Row)
    requires Distinct(entries) && reservation in entries && reservation.ReservationRow?
    ensures Held(entries, reservation.id) == reservation.amount
  {
    var shorter, last := entries[..|entries| - 1], entries[|entries| - 1];
    if last == reservation {
      HeldNothing(shorter, reservation.id);
    } else {
      HeldIsAmount(shorter, reservation);
    }
  }

  lemma {:induction false} HeldNothing(entries: seq<Row>, id: string)
    requires forall i :: 0 <= i < |entries| ==> entries[i].id != id
    ensures Held(entries, id) == 0
  {
    if entries != [] {
      HeldNothing(entries[..|entries| - 1], id);
    }
  }

  lemma SettledOfAll(entries: seq<Row>, all: seq<Row>, all': seq<Row>)
    ensures Settled(entries, all, None) == Settled(entries, all', None)
  {
  }

  lemma ReservationRaisesExposure(opening: nat, entries: seq<Row>, row: Row)
    requires row.ReservationRow? && row.id !in ResolvedIds(entries)
    ensures Exposure(opening, entries + [row]) == Exposure(opening, entries) + row.amount
  {
    var next := entries + [row];
    assert next[..|entries|] == entries;
    assert ResolvedIds(next) == ResolvedIds(entries);
    SettledOfAll(entries, next, entries);
  }

  /** A terminal row replaces the outstanding amount of its reservation by its own. */
  lemma TerminalMovesExposure(opening: nat, entries: seq<Row>, row: Row, reservation: Row)
    requires row.TerminalRow? && row.reservationId !in ResolvedIds(entries)
    requires Distinct(entries) && reservation in entries && reservation.ReservationRow? && reservation.id == row.reservationId
    ensures Exposure(opening, entries + [row]) == Exposure(opening, entries) + row.amount - reservation.amount
  {
    var next := entries + [row];
    assert next[..|entries|] == entries;
    assert ResolvedIds(next) == ResolvedIds(entries) + {row.reservationId};
    SettledOfAll(entries, next, entries);
    OutstandingDrops(entries, ResolvedIds(entries), row.reservationId);
    HeldIsAmount(entries, reservation);
  }

  lemma {:induction false} ExcessStays(entries: seq<Row>, rows: seq<Row>, row: Row)
    requires !HasId(rows, row.id)
    requires forall i :: 0 <= i < |entries| && entries[i].TerminalRow? ==> FindReservation(rows, entries[i].reservationId).Some?
    ensures Excess(entries, rows + [row]) == Excess(entries, rows)
  {
    hide Find;
    if entries != [] {
      ExcessStays(entries[..|entries| - 1], rows, row);
      FindStays(rows, row);
      assert entries[|entries| - 1].TerminalRow? ==> FindReservation(rows, entries[|entries| - 1].reservationId).Some?;
    }
  }

  lemma {:induction false} ExcessIsNonnegative(entries: seq<Row>, rows: seq<Row>)
    requires Linked(rows) && forall e :: e in entries ==> e in rows
    ensures Excess(entries, rows) >= 0
    ensures !HasOverrun(entries) ==> Excess(entries, rows) == 0
    ensures HasOverrun(entries) ==> Excess(entries, rows) > 0
  {
    hide Find;
    if entries != [] {
      var shorter, last := entries[..|entries| - 1], entries[|entries| - 1];
      ExcessIsNonnegative(shorter, rows);
      assert HasOverrun(entries) <==> HasOverrun(shorter) || (last.TerminalRow? && last.kind.Overrun?) by {
        assert entries == shorter + [last];
        assert forall i :: 0 <= i < |shorter| ==> entries[i] == shorter[i];
      }
      assert last in rows;
      if last.TerminalRow? {
        var k :| 0 <= k < |rows| && rows[k] == last;
        assert TerminalFits(last, FindReservation(rows, last.reservationId).value);
      }
    }
  }

  // ----- The exposure bound

  /** Exposure never exceeds the automatic stop by more than overruns exceeded their reservations. */
  ghost predicate Bounded(rows: seq<Row>, campaign: Row)
    requires campaign.CampaignRow?
  {
    var entries := EntriesOf(rows, campaign.id);
    Exposure(campaign.opening, entries) <= campaign.stop + Excess(entries, rows)
  }

  ghost predicate AllBounded(rows: seq<Row>) {
    forall campaign :: campaign in rows && campaign.CampaignRow? ==> Bounded(rows, campaign)
  }

  lemma ResolvedEntry(rows: seq<Row>, campaignId: string, id: string)
    requires Linked(rows) && id in ResolvedIds(EntriesOf(rows, campaignId))
    ensures IsResolved(rows, id) && HasId(rows, id)
  {
    hide Find;
    var e :| e in EntriesOf(rows, campaignId) && e.TerminalRow? && e.reservationId == id;
    var i :| 0 <= i < |rows| && rows[i] == e;
    assert FindReservation(rows, id).Some?;
  }

  lemma EntriesHaveReservations(rows: seq<Row>, campaignId: string)
    requires Linked(rows)
    ensures var entries := EntriesOf(rows, campaignId);
            forall i :: 0 <= i < |entries| && entries[i].TerminalRow? ==> FindReservation(rows, entries[i].reservationId).Some?
  {
    hide Find;
    var entries := EntriesOf(rows, campaignId);
    forall i | 0 <= i < |entries| && entries[i].TerminalRow?
      ensures FindReservation(rows, entries[i].reservationId).Some?
    {
      assert entries[i] in rows;
    }
  }

  lemma NoEntriesOfNewCampaign(rows: seq<Row>, id: string)
    requires Linked(rows) && !HasId(rows, id)
    ensures EntriesOf(rows, id) == []
  {
    hide Find;
    forall i | 0 <= i < |rows| && !rows[i].CampaignRow? ensures rows[i].campaignId != id {
      if rows[i].TerminalRow? {
        var reservation := FindReservation(rows, rows[i].reservationId).value;
        var j :| 0 <= j < |rows| && rows[j] == reservation;
        assert FindCampaign(rows, rows[j].campaignId).Some?;
      }
    }
    NoMatchNoEntries(rows, id);
  }

  lemma {:induction false} NoMatchNoEntries(rows: seq<Row>, id: string)
    requires forall i :: 0 <= i < |rows| && !rows[i].CampaignRow? ==> rows[i].campaignId != id
    ensures EntriesOf(rows, id) == []
  {
    if rows != [] {
      NoMatchNoEntries(rows[..|rows| - 1], id);
    }
  }

  lemma OtherEntriesUnmoved(rows: seq<Row>, row: Row, campaign: Row)
    requires Linked(rows) && Insertable(rows, row) && campaign.CampaignRow? && Bounded(rows, campaign)
    requires row.CampaignRow? || row.campaignId != campaign.id
    ensures Bounded(rows + [row], campaign)
  {
    hide Insertable, Linked;
    EntriesExtend(rows, row, campaign.id);
    assert !HasId(rows, row.id) by {
      InsertableIsNew(rows, row);
    }
    EntriesHaveReservations(rows, campaign.id);
    ExcessStays(EntriesOf(rows, campaign.id), rows, row);
    assert EntriesOf(rows + [row], campaign.id) == EntriesOf(rows, campaign.id);
  }

  lemma InsertableIsNew(rows: seq<Row>, row: Row)
    requires Insertable(rows, row)
    ensures !HasId(rows, row.id)
  {
  }

  lemma CampaignKeepsBounds(rows: seq<Row>, row: Row)
    requires Linked(rows) && AllBounded(rows) && row.CampaignRow? && Insertable(rows, row)
    ensures AllBounded(rows + [row])
  {
    hide Linked, Bounded;
    forall campaign | campaign in rows + [row] && campaign.CampaignRow? ensures Bounded(rows + [row], campaign) {
      if campaign in rows {
        OtherEntriesUnmoved(rows, row, campaign);
      } else {
        NewCampaignIsBounded(rows, row);
      }
    }
  }

  lemma NewCampaignIsBounded(rows: seq<Row>, row: Row)
    requires Linked(rows) && row.CampaignRow? && Insertable(rows, row)
    ensures Bounded(rows + [row], row)
  {
    hide Linked;
    NoEntriesOfNewCampaign(rows, row.id);
    EntriesExtend(rows, row, row.id);
  }

  /** An admitted reservation fits under the automatic stop, in a campaign that has no overrun. */
  lemma ReservationKeepsBound(rows: seq<Row>, row: Row, campaign: Row)
    requires Linked(rows) && row.ReservationRow? && Insertable(rows, row) && campaign in rows && campaign.CampaignRow?
    requires row.campaignId == campaign.id
    requires var entries := EntriesOf(rows, campaign.id);
             row.amount <= Monus(campaign.stop, Exposure(campaign.opening, entries)) && row.amount > 0
    ensures Bounded(rows + [row], campaign)
  {
    hide Linked, Insertable;
    var entries := EntriesOf(rows, campaign.id);
    InsertableIsNew(rows, row);
    EntriesExtend(rows, row, campaign.id);
    if row.id in ResolvedIds(entries) {
      ResolvedEntry(rows, campaign.id, row.id);
    }
    ReservationRaisesExposure(campaign.opening, entries, row);
    EntriesHaveReservations(rows, campaign.id);
    ExcessStays(entries, rows, row);
    assert (entries + [row])[..|entries|] == entries;
    ExcessIsNonnegative(entries, rows);
  }

  lemma ReserveKeepsBounds(rows: seq<Row>, input: ReserveInput)
    requires Linked(rows) && AllBounded(rows) && Reserve(rows, input).Success?
    ensures var next := Reserve(rows, input).value.1; Linked(next) && AllBounded(next) && (next == rows || (|next| > |rows| && Insertable(rows, next[|rows|])))
  {
    hide Linked, Bounded, Insertable, Find, ProjectWorstCase;
    var (resolution, next) := Reserve(rows, input).value;
    if resolution.Admitted? {
      var row := resolution.reservation;
      InsertKeepsLinked(rows, row);
      forall campaign | campaign in next && campaign.CampaignRow? ensures Bounded(next, campaign) {
        if campaign.id == input.campaignId {
          FindOfCampaign(rows, campaign);
          ReservationKeepsBound(rows, row, campaign);
        } else {
          OtherEntriesUnmoved(rows, row, campaign);
        }
      }
    }
  }

  lemma FindOfCampaign(rows: seq<Row>, campaign: Row)
    requires Linked(rows) && campaign in rows && campaign.CampaignRow?
    ensures FindCampaign(rows, campaign.id) == Some(campaign)
  {
    FindOfMember(rows, campaign);
  }

  /** A terminal row adds what it charges above its reservation. */
  lemma ExcessOfMore(entries: seq<Row>, rows: seq<Row>, row: Row, r: Row)
    requires row.TerminalRow? && r.ReservationRow? && FindReservation(rows, row.reservationId) == Some(r)
    ensures Excess(entries + [row], rows) == Excess(entries, rows) + if row.kind.Overrun? then row.amount - r.amount else 0
  {
    hide Find;
    assert (entries + [row])[..|entries|] == entries;
  }

  lemma ResolveKeepsBound(rows: seq<Row>, row: Row, campaign: Row)
    requires Linked(rows) && row.TerminalRow? && Insertable(rows, row) && campaign.CampaignRow?
    requires row.campaignId == campaign.id && Bounded(rows, campaign)
    ensures Bounded(rows + [row], campaign)
  {
    EndedReservation(rows, row);
    hide Linked, Find, Insertable, Exposure, Excess, EntriesOf, ResolvedIds, IsResolved;
    var entries, next := EntriesOf(rows, campaign.id), rows + [row];
    var reservation := FindReservation(rows, row.reservationId).value;
    EntriesExtend(rows, row, campaign.id);
    EntryIffRow(rows, campaign.id, reservation);
    LinkedIsDistinct(rows);
    EntriesDistinct(rows, campaign.id);
    if row.reservationId in ResolvedIds(entries) {
      ResolvedEntry(rows, campaign.id, row.reservationId);
    }
    TerminalMovesExposure(campaign.opening, entries, row, reservation);
    EntriesHaveReservations(rows, campaign.id);
    ExcessStays(entries, rows, row);
    FindStays(rows, row);
    ExcessOfMore(entries, next, row, reservation);
  }

  /** An admitted terminal row ends a reservation of its own campaign. */
  lemma EndedReservation(rows: seq<Row>, row: Row)
    requires row.TerminalRow? && Insertable(rows, row)
    ensures FindReservation(rows, row.reservationId).Some? && !HasId(rows, row.id) && !IsResolved(rows, row.reservationId)
    ensures var r := FindReservation(rows, row.reservationId).value;
            r in rows && r.ReservationRow? && r.id == row.reservationId && r.campaignId == row.campaignId && TerminalFits(row, r)
  {
    hide Find;
  }

  lemma LinkedIsDistinct(rows: seq<Row>)
    requires Linked(rows)
    ensures Distinct(rows)
  {
  }

  lemma ResolveKeepsBounds(rows: seq<Row>, input: ResolveInput)
    requires Linked(rows) && AllBounded(rows) && Resolve(rows, input).Success?
    ensures var next := Resolve(rows, input).value; Linked(next) && AllBounded(next) && Insertable(rows, next[|rows|])
  {
    hide Linked, Bounded, Insertable, Find;
    var row := TerminalFor(input, FindReservation(rows, input.reservationId).value);
    var next := rows + [row];
    InsertKeepsLinked(rows, row);
    forall campaign | campaign in next && campaign.CampaignRow? ensures Bounded(next, campaign) {
      if row.campaignId == campaign.id {
        ResolveKeepsBound(rows, row, campaign);
      } else {
        OtherEntriesUnmoved(rows, row, campaign);
      }
    }
  }

  lemma CreateKeepsBounds(rows: seq<Row>, input: CampaignInput)
    requires Linked(rows) && AllBounded(rows) && CreateCampaign(rows, input).Success?
    ensures var next := CreateCampaign(rows, input).value; Linked(next) && AllBounded(next)
  {
    hide Linked, Bounded, Insertable;
    var row := CampaignRow(input.id, input.providerId, input.credentialId, input.opening, input.stop, input.ceiling,
                           input.scope, input.createdAt);
    InsertKeepsLinked(rows, row);
    CampaignKeepsBounds(rows, row);
  }

  // ----- Overruns

  /** While no overrun exists, exposure stays under the automatic stop and so under the hard ceiling. */
  lemma NoOverrunMeansWithinStop(rows: seq<Row>, campaign: Row)
    requires Linked(rows) && AllBounded(rows) && campaign in rows && campaign.CampaignRow?
    requires !HasOverrun(EntriesOf(rows, campaign.id))
    ensures Exposure(campaign.opening, EntriesOf(rows, campaign.id)) <= campaign.stop <= campaign.ceiling
  {
    hide Find;
    assert Bounded(rows, campaign);
    ExcessIsNonnegative(EntriesOf(rows, campaign.id), rows);
  }

  /** After an overrun no reservation of the campaign is admitted. */
  lemma OverrunDisables(rows: seq<Row>, input: ReserveInput)
    requires HasOverrun(EntriesOf(rows, input.campaignId)) && Reserve(rows, input).Success?
    ensures Reserve(rows, input).value.1 == rows
    ensures Reserve(rows, input).value.0.Denied? && Reserve(rows, input).value.0.reason == CampaignOverrun
  {
    hide Find, EntriesOf, Exposure, EpisodeExposure, Anchored, ProjectWorstCase;
  }

  lemma OverrunStays(rows: seq<Row>, row: Row, campaignId: string)
    requires HasOverrun(EntriesOf(rows, campaignId))
    ensures HasOverrun(EntriesOf(rows + [row], campaignId))
  {
    EntriesExtend(rows, row, campaignId);
    var entries := EntriesOf(rows, campaignId);
    var i :| 0 <= i < |entries| && entries[i].TerminalRow? && entries[i].kind.Overrun?;
    assert EntriesOf(rows + [row], campaignId)[i] == entries[i];
  }

  // ----- A session's single reservation

  lemma {:induction false} NothingOutstanding(entries: seq<Row>, resolved: set<string>, session: string)
    requires forall e :: e in entries && e.ReservationRow? ==> e.sessionId != session
    ensures Outstanding(entries, resolved, Some(session)) == 0
  {
    if entries != [] {
      NothingOutstanding(entries[..|entries| - 1], resolved, session);
      assert entries[|entries| - 1] in entries;
    }
  }

  lemma {:induction false} NothingSettled(entries: seq<Row>, all: seq<Row>, session: string)
    requires forall e :: e in all && e.ReservationRow? ==> e.sessionId != session
    ensures Settled(entries, all, Some(session)) == 0
  {
    if entries != [] {
      NothingSettled(entries[..|entries| - 1], all, session);
    }
  }

  /** A session that holds no reservation has its whole episode cap left. */
  lemma FirstReservationHasTheCap(rows: seq<Row>, campaignId: string, session: string, cap: nat)
    requires !SessionReserved(rows, session) && GetPosition(rows, campaignId, session, cap).Success?
    ensures GetPosition(rows, campaignId, session, cap).value.remainingEpisode == cap
  {
    hide Find, Anchored, Exposure;
    var entries := EntriesOf(rows, campaignId);
    forall e | e in entries && e.ReservationRow? ensures e.sessionId != session {
      assert e in rows;
    }
    NothingOutstanding(entries, ResolvedIds(entries), session);
    NothingSettled(entries, entries, session);
  }

  lemma {:induction false} OutstandingOfOne(entries: seq<Row>, resolved: set<string>, r: Row)
    requires Distinct(entries) && r.ReservationRow? && r.id !in resolved
    requires forall e :: e in entries && e.ReservationRow? && e.sessionId == r.sessionId ==> e == r
    ensures Outstanding(entries, resolved, Some(r.sessionId)) == if r in entries then r.amount else 0
  {
    if entries != [] {
      var shorter, last := entries[..|entries| - 1], entries[|entries| - 1];
      OutstandingOfOne(shorter, resolved, r);
      assert last in entries && entries == shorter + [last];
      assert last == r ==> r !in shorter;
    }
  }

  lemma {:induction false} OutstandingOfNone(entries: seq<Row>, resolved: set<string>, r: Row)
    requires r.ReservationRow? && r.id in resolved
    requires forall e :: e in entries && e.ReservationRow? && e.sessionId == r.sessionId ==> e == r
    ensures Outstanding(entries, resolved, Some(r.sessionId)) == 0
  {
    if entries != [] {
      OutstandingOfNone(entries[..|entries| - 1], resolved, r);
      assert entries[|entries| - 1] in entries;
    }
  }

  /** The terminal row of `r` among `entries`, if it is there, is all that its session has settled. */
  lemma {:induction false} SettledOfOne(entries: seq<Row>, all: seq<Row>, r: Row, x: Row)
    requires r in all && r.ReservationRow? && x.TerminalRow? && x.reservationId == r.id && Distinct(entries)
    requires forall e :: e in all && e.ReservationRow? && e.sessionId == r.sessionId ==> e == r
    requires forall e :: e in entries && e.TerminalRow? && e.reservationId == r.id ==> e == x
    ensures Settled(entries, all, Some(r.sessionId)) == if x in entries then x.amount else 0
  {
    if entries != [] {
      var shorter, last := entries[..|entries| - 1], entries[|entries| - 1];
      SettledOfOne(shorter, all, r, x);
      assert last in entries && entries == shorter + [last];
      if last.TerminalRow? {
        assert BelongsTo(all, last, r.sessionId) <==> last.reservationId == r.id by {
          var i :| 0 <= i < |all| && all[i] == r;
        }
      }
      assert last == x ==> x !in shorter;
    }
  }

  lemma {:induction false} SettledOfNone(entries: seq<Row>, all: seq<Row>, r: Row)
    requires r.ReservationRow? && forall e :: e in all && e.ReservationRow? && e.sessionId == r.sessionId ==> e == r
    requires forall e :: e in entries && e.TerminalRow? ==> e.reservationId != r.id
    ensures Settled(entries, all, Some(r.sessionId)) == 0
  {
    if entries != [] {
      SettledOfNone(entries[..|entries| - 1], all, r);
      assert entries[|entries| - 1] in entries;
    }
  }

  /** The session's only reservation. */
  ghost predicate IsOnlyOne(rows: seq<Row>, r: Row) {
    r in rows && r.ReservationRow? && forall e :: e in rows && e.ReservationRow? && e.sessionId == r.sessionId ==> e == r
  }

  lemma OpenEpisode(rows: seq<Row>, r: Row)
    requires Distinct(rows) && IsOnlyOne(rows, r) && forall x :: x in rows && x.TerminalRow? ==> x.reservationId != r.id
    ensures EpisodeExposure(EntriesOf(rows, r.campaignId), r.sessionId) == r.amount
  {
    var entries := EntriesOf(rows, r.campaignId);
    EntriesDistinct(rows, r.campaignId);
    EntryIffRow(rows, r.campaignId, r);
    hide EntriesOf;
    OutstandingOfOne(entries, ResolvedIds(entries), r);
    SettledOfNone(entries, entries, r);
  }

  lemma EndedEpisode(rows: seq<Row>, r: Row, x: Row)
    requires Distinct(rows) && IsOnlyOne(rows, r)
    requires x in rows && x.TerminalRow? && x.reservationId == r.id && x.campaignId == r.campaignId
    requires forall y :: y in rows && y.TerminalRow? && y.reservationId == r.id ==> y == x
    ensures EpisodeExposure(EntriesOf(rows, r.campaignId), r.sessionId) == x.amount
  {
    var entries := EntriesOf(rows, r.campaignId);
    EntriesDistinct(rows, r.campaignId);
    EntryIffRow(rows, r.campaignId, r);
    EntryIffRow(rows, r.campaignId, x);
    hide EntriesOf;
    OutstandingOfNone(entries, ResolvedIds(entries), r);
    SettledOfOne(entries, entries, r, x);
  }

  /** In a linked ledger a terminal row is its reservation's only one, and of its campaign. */
  lemma OnlyEnd(rows: seq<Row>, r: Row, x: Row)
    requires Linked(rows) && r in rows && r.ReservationRow? && x in rows && x.TerminalRow? && x.reservationId == r.id
    ensures x.campaignId == r.campaignId && forall y :: y in rows && y.TerminalRow? && y.reservationId == r.id ==> y == x
  {
    FindOfMember(rows, r);
    hide Find, ReservationsLinked, CampaignsLimited;
    var i :| 0 <= i < |rows| && rows[i] == x;
    assert TerminalFits(rows[i], FindReservation(rows, rows[i].reservationId).value);
    forall y | y in rows && y.TerminalRow? && y.reservationId == r.id ensures y == x {
      var j :| 0 <= j < |rows| && rows[j] == y;
    }
  }

  /** A session's episode exposure is the amount of its one reservation, and once that is resolved what its terminal row charged. */
  lemma EpisodeExposureIsItsReservation(rows: seq<Row>, r: Row)
    requires Linked(rows) && IsOnlyOne(rows, r)
    ensures (forall x :: x in rows && x.TerminalRow? ==> x.reservationId != r.id) ==>
              EpisodeExposure(EntriesOf(rows, r.campaignId), r.sessionId) == r.amount
    ensures forall x :: x in rows && x.TerminalRow? && x.reservationId == r.id ==>
              EpisodeExposure(EntriesOf(rows, r.campaignId), r.sessionId) == x.amount
  {
    LinkedIsDistinct(rows);
    hide Linked, EpisodeExposure, EntriesOf;
    if forall x :: x in rows && x.TerminalRow? ==> x.reservationId != r.id {
      OpenEpisode(rows, r);
    }
    forall x | x in rows && x.TerminalRow? && x.reservationId == r.id
      ensures EpisodeExposure(EntriesOf(rows, r.campaignId), r.sessionId) == x.amount
    {
      OnlyEnd(rows, r, x);
      EndedEpisode(rows, r, x);
    }
  }

  /**
   * A reservation that is decided is admitted exactly if its campaign has no overrun and the projected cost fits the
   * session's cap, and on top of the exposure the ceiling and the automatic stop; a denial names the first that fails.
   */
  lemma WhenAdmitted(rows: seq<Row>, input: ReserveInput)
    requires Reserve(rows, input).Success?
    ensures FindCampaign(rows, input.campaignId).Some? && ProjectWorstCase(input.projection).Success?
    ensures var c, projected := FindCampaign(rows, input.campaignId).value, ProjectWorstCase(input.projection).value;
            var entries := EntriesOf(rows, input.campaignId);
            var exposure, resolution := Exposure(c.opening, entries), Reserve(rows, input).value.0;
            var overrun := exists e :: e in entries && e.TerminalRow? && e.kind.Overrun?;
            && (resolution.Admitted?
                <==> !overrun && projected <= input.cap && exposure + projected <= c.ceiling && exposure + projected <= c.stop)
            && (resolution.Denied? ==>
                  resolution.reason == (if overrun then CampaignOverrun
                                        else if projected > input.cap then EpisodeCap
                                        else if exposure + projected > c.ceiling then CampaignHardCeiling
                                        else CampaignAutomaticStop))
  {
    hide Insertable, Find, EntriesOf, Exposure, EpisodeExposure, Anchored, ProjectWorstCase;
    FirstReservationHasTheCap(rows, input.campaignId, input.sessionId, input.cap);
    var entries := EntriesOf(rows, input.campaignId);
    if HasOverrun(entries) {
      var i :| 0 <= i < |entries| && entries[i].TerminalRow? && entries[i].kind.Overrun?;
      assert entries[i] in entries;
    }
  }
}
