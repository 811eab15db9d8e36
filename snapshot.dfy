/** The transform half of the collector's `store_positions`: from one feeder
    snapshot to the position rows and metadata upserts of one tick. */
module Snapshot {
  import opened Wrappers
  import opened Text
  import MilitaryCache

  /** A key of a JSON object: missing, present with null, or present with a
      value. `aircraft.get(key)` does not tell the first two apart;
      `key in aircraft` does. */
  datatype Field<T> = Absent | Null | Present(value: T)

  /** `obj.get(key)`. */
  function Get<T>(f: Field<T>): (r: Option<T>)
    ensures r.Some? <==> f.Present?
  {
    if f.Present? then Some(f.value) else None
  }

  /** Python truthiness of an optional text value. */
  predicate Truthy(s: Option<string>) {
    s.Some? && s.value != ""
  }

  /** The values copied unchanged from a report into its position row. */
  datatype Telemetry = Telemetry(
    altBaro: Option<int>, altGeom: Option<int>, gs: Option<int>, track: Option<int>,
    baroRate: Option<int>, squawk: Option<string>, emergency: Option<string>,
    navAltitudeMcp: Option<int>, rssi: Option<int>, messages: Option<int>, seen: Option<int>)

  /** One member of the snapshot's `aircraft` array. `hex`, `lat` and `lon`
      keep key presence; the other keys are read with `.get`. */
  datatype AircraftReport = AircraftReport(
    hex: Field<string>, lat: Field<int>, lon: Field<int>,
    flight: Option<string>, category: Option<string>,
    registration: Option<string>, typeCode: Option<string>, description: Option<string>,
    ownerOperator: Option<string>, year: Option<int>, telemetry: Telemetry)

  datatype Position = Position(
    time: int, icao: string, flight: Option<string>, lat: Option<int>, lon: Option<int>,
    category: Option<string>, telemetry: Telemetry)

  datatype MetadataUpdate = MetadataUpdate(
    icao: string, registration: Option<string>, aircraftType: Option<string>,
    typeDescription: Option<string>, ownerOperator: Option<string>, year: Option<int>,
    isMilitary: bool)

  datatype Batch = Batch(positions: seq<Position>, updates: seq<MetadataUpdate>)

  /** The feeder's JSON object: its `aircraft` key and whether it has any
      other key (which alone makes it truthy). */
  datatype FeedDocument = FeedDocument(aircraft: Field<seq<AircraftReport>>, hasOtherKeys: bool)

  predicate IsTruthy(doc: FeedDocument) {
    doc.hasOtherKeys || !doc.aircraft.Absent?
  }

  /** Both coordinate keys are there (their values may be null). */
  predicate HasPosition(a: AircraftReport) {
    !a.lat.Absent? && !a.lon.Absent?
  }

  /** `None.lower()` is reached: the report raises AttributeError. */
  predicate RaisesOn(a: AircraftReport) {
    HasPosition(a) && a.hex.Null?
  }

  /** The report yields a position row. */
  predicate Eligible(a: AircraftReport) {
    HasPosition(a) && a.hex.Present? && a.hex.value != ""
  }

  /** Registration, type or category is truthy: the report also yields a
      metadata upsert. */
  predicate HasMetadata(a: AircraftReport) {
    Truthy(a.registration) || Truthy(a.typeCode) || Truthy(a.category)
  }

  /** The position row of an eligible report, stamped with the tick's time. */
  function PositionOf(a: AircraftReport, now: int): (p: Position)
    requires Eligible(a)
    ensures p.time == now && p.icao != "" && IsLowerCase(p.icao) && p.icao == Lower(a.hex.value)
    ensures p.flight.Some? <==> Truthy(a.flight)
    ensures p.flight.Some? ==> p.flight.value == Strip(a.flight.value)
    ensures p.lat == Get(a.lat) && p.lon == Get(a.lon) && p.category == a.category && p.telemetry == a.telemetry
  {
    LowerIsLowerCase(a.hex.value);
    Position(now, Lower(a.hex.value),
             if Truthy(a.flight) then Some(Strip(a.flight.value)) else None,
             Get(a.lat), Get(a.lon), a.category, a.telemetry)
  }

  /** The metadata upsert of an eligible report; the military flag is looked
      up in the cache as it is at this tick. */
  function UpdateOf(a: AircraftReport, database: Option<MilitaryCache.MilitaryTable>): (u: MetadataUpdate)
    requires Eligible(a)
    ensures u.icao == Lower(a.hex.value)
    ensures u.isMilitary <==> database.Some? && Upper(a.hex.value) in database.value
    ensures u.registration == a.registration && u.aircraftType == a.typeCode &&
            u.typeDescription == a.description && u.ownerOperator == a.ownerOperator && u.year == a.year
  {
    MetadataUpdate(Lower(a.hex.value), a.registration, a.typeCode, a.description, a.ownerOperator, a.year,
                   MilitaryCache.IsMilitaryAircraft(database, Get(a.hex)))
  }

  /** The loop over the reports, as a left fold; None when a report raises. */
  function Transform(reports: seq<AircraftReport>, now: int, database: Option<MilitaryCache.MilitaryTable>): Option<Batch>
  {
    if reports == [] then Some(Batch([], []))
    else
      var a := reports[|reports| - 1];
      match Transform(reports[..|reports| - 1], now, database)
      case None => None
      case Some(b) =>
        if !HasPosition(a) then Some(b)
        else if a.hex.Null? then None
        else if !Eligible(a) then Some(b)
        else Some(Batch(b.positions + [PositionOf(a, now)],
                        if HasMetadata(a) then b.updates + [UpdateOf(a, database)] else b.updates))
  }

  /** The reports that yield a position row, in order. */
  function Kept(reports: seq<AircraftReport>): (r: seq<AircraftReport>)
    ensures forall i :: 0 <= i < |r| ==> Eligible(r[i])
  {
    if reports == [] then []
    else if Eligible(reports[0]) then [reports[0]] + Kept(reports[1..])
    else Kept(reports[1..])
  }

  lemma KeptAppend(reports: seq<AircraftReport>, a: AircraftReport)
    ensures Kept(reports + [a]) == Kept(reports) + (if Eligible(a) then [a] else [])
  {
    if reports != [] {
      assert (reports + [a])[1..] == reports[1..] + [a];
      KeptAppend(reports[1..], a);
    } else {
      assert Kept([a]) == (if Eligible(a) then [a] else []) + Kept([]);
    }
  }

  /** The transform raises exactly when some report has both coordinate
      keys and a null `hex`; which cache is loaded does not matter. */
  lemma {:induction false} TransformRaises(reports: seq<AircraftReport>, now: int, database: Option<MilitaryCache.MilitaryTable>)
    ensures Transform(reports, now, database).None? <==> exists i :: 0 <= i < |reports| && RaisesOn(reports[i])
  {
    if reports != [] {
      var n := |reports| - 1;
      TransformRaises(reports[..n], now, database);
      if exists i :: 0 <= i < |reports| && RaisesOn(reports[i]) {
        var i :| 0 <= i < |reports| && RaisesOn(reports[i]);
        if i < n {
          assert reports[..n][i] == reports[i];
        }
      }
      if exists i :: 0 <= i < n && RaisesOn(reports[..n][i]) {
        var i :| 0 <= i < n && RaisesOn(reports[..n][i]);
        assert reports[i] == reports[..n][i];
      }
    }
  }

  /** `positions` are the position rows of `reports`, one for one and in
      order. */
  predicate PositionsFor(positions: seq<Position>, reports: seq<AircraftReport>, now: int) {
    |positions| == |reports| &&
    forall i :: 0 <= i < |positions| ==> Eligible(reports[i]) && positions[i] == PositionOf(reports[i], now)
  }

  lemma PositionsForAppend(positions: seq<Position>, reports: seq<AircraftReport>, a: AircraftReport, now: int)
    requires PositionsFor(positions, reports, now) && Eligible(a)
    ensures PositionsFor(positions + [PositionOf(a, now)], reports + [a], now)
  {
  }

  /** Without a raise, the positions are exactly those of the eligible
      reports, in report order: a report lacking a coordinate key or with
      an empty `hex` contributes nothing. */
  lemma {:induction false} TransformPositions(reports: seq<AircraftReport>, now: int, database: Option<MilitaryCache.MilitaryTable>)
    requires Transform(reports, now, database).Some?
    ensures PositionsFor(Transform(reports, now, database).value.positions, Kept(reports), now)
  {
    if reports != [] {
      var n := |reports| - 1;
      var a := reports[n];
      TransformLast(reports, now, database);
      TransformPositions(reports[..n], now, database);
      assert reports[..n] + [a] == reports;
      KeptAppend(reports[..n], a);
      var ps := Transform(reports[..n], now, database).value.positions;
      if Eligible(a) {
        assert Transform(reports, now, database).value.positions == ps + [PositionOf(a, now)];
        assert Kept(reports) == Kept(reports[..n]) + [a];
        PositionsForAppend(ps, Kept(reports[..n]), a, now);
      } else {
        assert Transform(reports, now, database).value.positions == ps;
        assert Kept(reports) == Kept(reports[..n]);
      }
    }
  }

  /** The reports that yield a metadata upsert, in order: those that yield
      a position row and have a truthy registration, type or category. */
  function Upserted(reports: seq<AircraftReport>): (r: seq<AircraftReport>)
    ensures forall i :: 0 <= i < |r| ==> Eligible(r[i]) && HasMetadata(r[i])
  {
    if reports == [] then []
    else if Eligible(reports[0]) && HasMetadata(reports[0]) then [reports[0]] + Upserted(reports[1..])
    else Upserted(reports[1..])
  }

  lemma UpsertedAppend(reports: seq<AircraftReport>, a: AircraftReport)
    ensures Upserted(reports + [a]) == Upserted(reports) + (if Eligible(a) && HasMetadata(a) then [a] else [])
  {
    if reports != [] {
      assert (reports + [a])[1..] == reports[1..] + [a];
      UpsertedAppend(reports[1..], a);
    } else {
      assert Upserted([a]) == (if Eligible(a) && HasMetadata(a) then [a] else []) + Upserted([]);
    }
  }

  /** `updates` are the upserts of `reports`, one for one and in order. */
  predicate UpdatesFor(updates: seq<MetadataUpdate>, reports: seq<AircraftReport>,
                       database: Option<MilitaryCache.MilitaryTable>) {
    |updates| == |reports| &&
    forall i :: 0 <= i < |updates| ==> Eligible(reports[i]) && updates[i] == UpdateOf(reports[i], database)
  }

  lemma UpdatesForAppend(updates: seq<MetadataUpdate>, reports: seq<AircraftReport>, a: AircraftReport,
                         database: Option<MilitaryCache.MilitaryTable>)
    requires UpdatesFor(updates, reports, database) && Eligible(a)
    ensures UpdatesFor(updates + [UpdateOf(a, database)], reports + [a], database)
  {
  }

  /** Without a raise, the upserts are exactly those of the reports that
      yield a position row and carry registration, type or category, in
      report order. */
  lemma {:induction false} TransformUpdates(reports: seq<AircraftReport>, now: int, database: Option<MilitaryCache.MilitaryTable>)
    requires Transform(reports, now, database).Some?
    ensures UpdatesFor(Transform(reports, now, database).value.updates, Upserted(reports), database)
  {
    if reports != [] {
      var n := |reports| - 1;
      var a := reports[n];
      TransformLast(reports, now, database);
      TransformUpdates(reports[..n], now, database);
      assert reports[..n] + [a] == reports;
      UpsertedAppend(reports[..n], a);
      var us := Transform(reports[..n], now, database).value.updates;
      if Eligible(a) && HasMetadata(a) {
        assert Transform(reports, now, database).value.updates == us + [UpdateOf(a, database)];
        assert Upserted(reports) == Upserted(reports[..n]) + [a];
        UpdatesForAppend(us, Upserted(reports[..n]), a, database);
      } else {
        assert Transform(reports, now, database).value.updates == us;
        assert Upserted(reports) == Upserted(reports[..n]);
      }
    }
  }

  /** Every position row carries the tick's time and a non-empty lower-case
      identifier. */
  lemma PositionsShareTickAndLowerCase(reports: seq<AircraftReport>, now: int, database: Option<MilitaryCache.MilitaryTable>)
    requires Transform(reports, now, database).Some?
    ensures var b := Transform(reports, now, database).value;
            forall p :: p in b.positions ==> p.time == now && p.icao != "" && IsLowerCase(p.icao)
  {
    TransformPositions(reports, now, database);
  }

  function PositionIcaos(ps: seq<Position>): (r: seq<string>)
    ensures |r| == |ps| && forall i :: 0 <= i < |ps| ==> r[i] == ps[i].icao
  {
    if ps == [] then [] else PositionIcaos(ps[..|ps| - 1]) + [ps[|ps| - 1].icao]
  }

  function UpdateIcaos(us: seq<MetadataUpdate>): (r: seq<string>)
    ensures |r| == |us| && forall i :: 0 <= i < |us| ==> r[i] == us[i].icao
  {
    if us == [] then [] else UpdateIcaos(us[..|us| - 1]) + [us[|us| - 1].icao]
  }

  lemma PositionIcaosAppend(ps: seq<Position>, p: Position)
    ensures multiset(PositionIcaos(ps + [p])) == multiset(PositionIcaos(ps)) + multiset{p.icao}
  {
    assert (ps + [p])[..|ps|] == ps;
  }

  lemma UpdateIcaosAppend(us: seq<MetadataUpdate>, u: MetadataUpdate)
    ensures multiset(UpdateIcaos(us + [u])) == multiset(UpdateIcaos(us)) + multiset{u.icao}
  {
    assert (us + [u])[..|us|] == us;
  }

  /** The last report of a snapshot that does not raise extends the batch
      of the others by its position row and, with metadata, its upsert. */
  lemma TransformLast(reports: seq<AircraftReport>, now: int, database: Option<MilitaryCache.MilitaryTable>)
    requires reports != [] && Transform(reports, now, database).Some?
    ensures var n := |reports| - 1;
            var a := reports[n];
            Transform(reports[..n], now, database).Some? &&
            var b := Transform(reports[..n], now, database).value;
            Transform(reports, now, database).value ==
              if !Eligible(a) then b
              else Batch(b.positions + [PositionOf(a, now)],
                         if HasMetadata(a) then b.updates + [UpdateOf(a, database)] else b.updates)
  {
  }

  /** Each metadata upsert comes with a position row for the same aircraft:
      the upserted identifiers form a sub-multiset of the positions'. */
  lemma {:induction false} UpdatesBelowPositions(reports: seq<AircraftReport>, now: int, database: Option<MilitaryCache.MilitaryTable>)
    requires Transform(reports, now, database).Some?
    ensures var b := Transform(reports, now, database).value;
            multiset(UpdateIcaos(b.updates)) <= multiset(PositionIcaos(b.positions))
  {
    if reports != [] {
      var n := |reports| - 1;
      var a := reports[n];
      TransformLast(reports, now, database);
      UpdatesBelowPositions(reports[..n], now, database);
      var b := Transform(reports[..n], now, database).value;
      if Eligible(a) {
        PositionIcaosAppend(b.positions, PositionOf(a, now));
        if HasMetadata(a) {
          UpdateIcaosAppend(b.updates, UpdateOf(a, database));
        }
      }
    }
  }

  /** What `store_positions` does with one snapshot: returns early without
      writing, raises before writing, or writes a non-empty batch. */
  datatype StorePlan = NothingToStore | Raised | Write(batch: Batch)

  /** The snapshot has a non-empty `aircraft` list with a report that
      raises. */
  predicate StoreRaises(doc: FeedDocument) {
    doc.aircraft.Present? && exists i :: 0 <= i < |doc.aircraft.value| && RaisesOn(doc.aircraft.value[i])
  }

  function PlanStore(doc: FeedDocument, now: int, database: Option<MilitaryCache.MilitaryTable>): (p: StorePlan)
    ensures p.Raised? <==> StoreRaises(doc)
    ensures p.Write? ==> doc.aircraft.Present? && Transform(doc.aircraft.value, now, database) == Some(p.batch)
                         && |p.batch.positions| > 0
    ensures !IsTruthy(doc) || !doc.aircraft.Present? ==> p == NothingToStore
    ensures doc.aircraft.Present? && Transform(doc.aircraft.value, now, database).Some? &&
            Transform(doc.aircraft.value, now, database).value.positions != [] ==>
              p == Write(Transform(doc.aircraft.value, now, database).value)
  {
    if !IsTruthy(doc) || doc.aircraft.Absent? then NothingToStore
    else
      var list := Get(doc.aircraft);
      if list.None? || list.value == [] then NothingToStore
      else
        TransformRaises(list.value, now, database);
        match Transform(list.value, now, database)
        case None => Raised
        case Some(b) => if b.positions == [] then NothingToStore else Write(b)
  }

  /** The loop of `store_positions`: appends a position row per eligible
      report and a metadata upsert per eligible report that has
      registration, type or category, stopping at a report that raises. */
  method CollectBatch(reports: seq<AircraftReport>, now: int, database: Option<MilitaryCache.MilitaryTable>)
    returns (batch: Option<Batch>)
    ensures batch == Transform(reports, now, database)
  {
    var positions: seq<Position> := [];
    var updates: seq<MetadataUpdate> := [];
    var i := 0;
    while i < |reports|
      invariant 0 <= i <= |reports|
      invariant Transform(reports[..i], now, database) == Some(Batch(positions, updates))
    {
      var a := reports[i];
      assert reports[..i + 1][..i] == reports[..i];
      if a.lat.Absent? || a.lon.Absent? {
        i := i + 1;
        continue;
      }
      if a.hex.Null? {
        TransformRaises(reports, now, database);
        return None;
      }
      var icao := Lower(Get(a.hex).GetOr(""));
      if icao == "" {
        i := i + 1;
        continue;
      }
      positions := positions + [Position(now, icao,
                                         if Truthy(a.flight) then Some(Strip(a.flight.value)) else None,
                                         Get(a.lat), Get(a.lon), a.category, a.telemetry)];
      if Truthy(a.registration) || Truthy(a.typeCode) || Truthy(a.category) {
        var isMilitary := MilitaryCache.IsMilitaryAircraft(database, Get(a.hex));
        updates := updates + [MetadataUpdate(icao, a.registration, a.typeCode, a.description,
                                             a.ownerOperator, a.year, isMilitary)];
      }
      i := i + 1;
    }
    assert reports[..i] == reports;
    batch := Some(Batch(positions, updates));
  }
}
