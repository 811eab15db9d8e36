/** The two writes the collector makes per tick: the batch insert of
    position rows and the batch upsert of metadata rows (INSERT ... ON
    CONFLICT (icao) DO UPDATE), with the database's tables as state. */
module Store {
  import opened Wrappers
  import opened Snapshot
  import Text
  import MilitaryCache

  datatype MetadataRow = MetadataRow(
    icao: string, registration: Option<string>, aircraftType: Option<string>,
    typeDescription: Option<string>, ownerOperator: Option<string>, year: Option<int>,
    isMilitary: bool, lastSeen: int, totalSightings: nat)

  /** SQL `COALESCE(incoming, existing)`. */
  function Coalesce<T>(incoming: Option<T>, existing: Option<T>): Option<T> {
    if incoming.Some? then incoming else existing
  }

  /** One row of the upsert at database time `now`: a new identifier is
      inserted with one sighting; an existing row keeps each text and year
      field unless the incoming one is non-null, always takes the incoming
      military flag and `now`, and counts one more sighting. */
  function Upsert(existing: Option<MetadataRow>, u: MetadataUpdate, now: int): (r: MetadataRow)
    ensures r.icao == u.icao && r.isMilitary == u.isMilitary && r.lastSeen == now
    ensures existing.None? ==> r.totalSightings == 1
    ensures existing.Some? ==> r.totalSightings == existing.value.totalSightings + 1
    ensures existing.None? ==>
              r.registration == u.registration && r.aircraftType == u.aircraftType &&
              r.typeDescription == u.typeDescription && r.ownerOperator == u.ownerOperator && r.year == u.year
    ensures existing.Some? ==>
              (u.registration.Some? ==> r.registration == u.registration) &&
              (u.registration.None? ==> r.registration == existing.value.registration) &&
              (u.aircraftType.Some? ==> r.aircraftType == u.aircraftType) &&
              (u.aircraftType.None? ==> r.aircraftType == existing.value.aircraftType) &&
              (u.typeDescription.Some? ==> r.typeDescription == u.typeDescription) &&
              (u.typeDescription.None? ==> r.typeDescription == existing.value.typeDescription) &&
              (u.ownerOperator.Some? ==> r.ownerOperator == u.ownerOperator) &&
              (u.ownerOperator.None? ==> r.ownerOperator == existing.value.ownerOperator) &&
              (u.year.Some? ==> r.year == u.year) &&
              (u.year.None? ==> r.year == existing.value.year)
  {
    match existing
    case None =>
      MetadataRow(u.icao, u.registration, u.aircraftType, u.typeDescription, u.ownerOperator, u.year,
                  u.isMilitary, now, 1)
    case Some(prev) =>
      MetadataRow(u.icao,
                  Coalesce(u.registration, prev.registration),
                  Coalesce(u.aircraftType, prev.aircraftType),
                  Coalesce(u.typeDescription, prev.typeDescription),
                  Coalesce(u.ownerOperator, prev.ownerOperator),
                  Coalesce(u.year, prev.year),
                  u.isMilitary, now, prev.totalSightings + 1)
  }

  /** The metadata table, keyed by identifier. */
  type MetadataTable = map<string, MetadataRow>

  predicate WellKeyed(t: MetadataTable) {
    forall k :: k in t ==> t[k].icao == k
  }

  function Lookup(t: MetadataTable, icao: string): Option<MetadataRow> {
    if icao in t then Some(t[icao]) else None
  }

  function ApplyUpsert(t: MetadataTable, u: MetadataUpdate, now: int): MetadataTable {
    t[u.icao := Upsert(Lookup(t, u.icao), u, now)]
  }

  /** The batch upsert: one statement per update, in order. */
  function ApplyUpserts(t: MetadataTable, us: seq<MetadataUpdate>, now: int): MetadataTable
    decreases |us|
  {
    if us == [] then t else ApplyUpserts(ApplyUpsert(t, us[0], now), us[1..], now)
  }

  /** How many of the updates are for `icao`. */
  function CountFor(us: seq<MetadataUpdate>, icao: string): nat {
    if us == [] then 0 else (if us[0].icao == icao then 1 else 0) + CountFor(us[1..], icao)
  }

  /** The batch upsert keeps every row keyed by its own identifier. */
  lemma {:induction false} UpsertsKeepKeys(t: MetadataTable, us: seq<MetadataUpdate>, now: int)
    requires WellKeyed(t)
    ensures WellKeyed(ApplyUpserts(t, us, now))
    decreases |us|
  {
    if us != [] {
      UpsertsKeepKeys(ApplyUpsert(t, us[0], now), us[1..], now);
    }
  }

  /** After a batch, an identifier has a row exactly when it had one or was
      updated, and its sighting count is the old count (0 for a new row)
      plus the number of updates for it. */
  lemma {:induction false} SightingsAfterUpserts(t: MetadataTable, us: seq<MetadataUpdate>, now: int, icao: string)
    ensures icao in ApplyUpserts(t, us, now) <==> icao in t || CountFor(us, icao) > 0
    ensures icao in ApplyUpserts(t, us, now) ==>
              ApplyUpserts(t, us, now)[icao].totalSightings ==
              (if icao in t then t[icao].totalSightings else 0) + CountFor(us, icao)
    decreases |us|
  {
    if us != [] {
      SightingsAfterUpserts(ApplyUpsert(t, us[0], now), us[1..], now, icao);
    }
  }

  /** Sighting counts never decrease and no row disappears. */
  lemma SightingsNeverDecrease(t: MetadataTable, us: seq<MetadataUpdate>, now: int, icao: string)
    requires icao in t
    ensures icao in ApplyUpserts(t, us, now)
    ensures ApplyUpserts(t, us, now)[icao].totalSightings >= t[icao].totalSightings
  {
    SightingsAfterUpserts(t, us, now, icao);
  }

  /** The military flag of a row is the one of the last update for it. */
  lemma {:induction false} MilitaryFlagIsLatest(t: MetadataTable, us: seq<MetadataUpdate>, now: int, k: nat)
    requires k < |us| && forall j :: k < j < |us| ==> us[j].icao != us[k].icao
    ensures us[k].icao in ApplyUpserts(t, us, now)
    ensures ApplyUpserts(t, us, now)[us[k].icao].isMilitary == us[k].isMilitary
    decreases |us|
  {
    if k == 0 {
      NotUpdatedUnchanged(ApplyUpsert(t, us[0], now), us[1..], now, us[0].icao);
    } else {
      MilitaryFlagIsLatest(ApplyUpsert(t, us[0], now), us[1..], now, k - 1);
    }
  }

  /** A row no update touches stays as it was. */
  lemma {:induction false} NotUpdatedUnchanged(t: MetadataTable, us: seq<MetadataUpdate>, now: int, icao: string)
    requires forall j :: 0 <= j < |us| ==> us[j].icao != icao
    ensures Lookup(ApplyUpserts(t, us, now), icao) == Lookup(t, icao)
    decreases |us|
  {
    if us != [] {
      NotUpdatedUnchanged(ApplyUpsert(t, us[0], now), us[1..], now, icao);
    }
  }

  /** One tick with a single report for `ABC123` at (10, 20) registered
      `N12345`, against an empty metadata table: one position row and one
      metadata row, both under `abc123`, with one sighting. */
  lemma SingleReportScenario(now: int, database: Option<MilitaryCache.MilitaryTable>, telemetry: Telemetry)
    ensures var a := AircraftReport(Present("ABC123"), Present(10), Present(20), None, None,
                                    Some("N12345"), None, None, None, None, telemetry);
            var p := PlanStore(FeedDocument(Present([a]), true), now, database);
            && p.Write? && |p.batch.positions| == 1 && p.batch.positions[0].icao == "abc123"
            && |p.batch.updates| == 1
            && var t := ApplyUpserts(map[], p.batch.updates, now);
               && t.Keys == {"abc123"} && t["abc123"].totalSightings == 1
               && t["abc123"].registration == Some("N12345")
  {
    var a := AircraftReport(Present("ABC123"), Present(10), Present(20), None, None,
                            Some("N12345"), None, None, None, None, telemetry);
    assert Text.Lower("ABC123") == "abc123";
    assert [a][..0] == [];
    assert Transform([], now, database) == Some(Batch([], []));
    assert Eligible(a) && HasMetadata(a);
    assert Transform([a], now, database) == Some(Batch([] + [PositionOf(a, now)], [] + [UpdateOf(a, database)]));
    var b := Transform([a], now, database).value;
    assert ApplyUpserts(map[], b.updates, now) == ApplyUpserts(ApplyUpsert(map[], b.updates[0], now), [], now);
  }

  /** How the database took the tick's writes: both statements committed,
      the position insert failed (nothing written), or the metadata upsert
      failed after the positions were written. */
  datatype WriteOutcome = Committed | InsertFailed | UpsertFailed

  /** The database tables the collector writes. */
  class Database {
    var positions: seq<Position>
    var metadata: MetadataTable

    ghost predicate Valid()
      reads this
    {
      WellKeyed(metadata)
    }

    constructor ()
      ensures Valid() && positions == [] && metadata == map[]
    {
      positions := [];
      metadata := map[];
    }

    /** The batch insert into the positions table. */
    method InsertPositions(ps: seq<Position>)
      requires Valid()
      modifies this
      ensures Valid()
      ensures positions == old(positions) + ps && metadata == old(metadata)
    {
      positions := positions + ps;
    }

    /** The batch upsert into the metadata table. */
    method UpsertMetadata(us: seq<MetadataUpdate>, now: int)
      requires Valid()
      modifies this
      ensures Valid()
      ensures metadata == ApplyUpserts(old(metadata), us, now) && positions == old(positions)
    {
      UpsertsKeepKeys(metadata, us, now);
      metadata := ApplyUpserts(metadata, us, now);
    }
  }
}
