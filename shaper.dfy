/** The result shaping of the bulk time-lapse query: the flat rows, ordered
    by aircraft then time, become one track per aircraft with the metadata
    of its first row and its positions in row order. */
module Shaper {
  import opened Wrappers

  /** One row of the bulk query. */
  datatype Row = Row(
    time: int, icao: string, flight: Option<string>, lat: int, lon: int, altBaro: Option<int>,
    gs: Option<int>, track: Option<int>, aircraftType: Option<string>, registration: Option<string>,
    typeDescription: Option<string>, isMilitary: bool)

  datatype Point = Point(time: int, lat: int, lon: int, alt: Option<int>, gs: Option<int>, track: Option<int>)

  datatype Track = Track(
    icao: string, flight: Option<string>, aircraftType: Option<string>, registration: Option<string>,
    typeDescription: Option<string>, isMilitary: bool, positions: seq<Point>)

  datatype Stats = Stats(uniqueAircraft: nat, totalPositions: nat)

  datatype Timelapse = Timelapse(stats: Stats, tracks: seq<Track>)

  /** `float(v) if v else None`: a missing value and a zero both become null. */
  function NullIfFalsy(v: Option<int>): (r: Option<int>)
    ensures r.Some? <==> v.Some? && v.value != 0
    ensures r.Some? ==> r == v
  {
    if v.Some? && v.value != 0 then v else None
  }

  function PointOf(row: Row): Point {
    Point(row.time, row.lat, row.lon, row.altBaro, NullIfFalsy(row.gs), NullIfFalsy(row.track))
  }

  /** The entry made for an aircraft at its first row, before any position. */
  function Header(row: Row): Track {
    Track(row.icao, row.flight, row.aircraftType, row.registration, row.typeDescription, row.isMilitary, [])
  }

  /** The aircraft of the rows, each once, in order of first appearance. */
  function Icaos(rows: seq<Row>): seq<string>
  {
    if rows == [] then []
    else
      var prev := Icaos(rows[..|rows| - 1]);
      var k := rows[|rows| - 1].icao;
      if k in prev then prev else prev + [k]
  }

  predicate Distinct(ks: seq<string>) {
    forall a, b :: 0 <= a < b < |ks| ==> ks[a] != ks[b]
  }

  /** Exactly the aircraft that have a row, none twice. */
  lemma {:induction false} IcaosCover(rows: seq<Row>)
    ensures Distinct(Icaos(rows))
    ensures forall k :: k in Icaos(rows) <==> exists j :: 0 <= j < |rows| && rows[j].icao == k
  {
    if rows != [] {
      var n := |rows| - 1;
      IcaosCover(rows[..n]);
      forall k
        ensures k in Icaos(rows) <==> exists j :: 0 <= j < |rows| && rows[j].icao == k
      {
        if exists j :: 0 <= j < |rows| && rows[j].icao == k {
          var j :| 0 <= j < |rows| && rows[j].icao == k;
          if j < n {
            assert rows[..n][j] == rows[j];
          }
        }
        if exists j :: 0 <= j < n && rows[..n][j].icao == k {
          var j :| 0 <= j < n && rows[..n][j].icao == k;
          assert rows[j] == rows[..n][j];
        }
      }
    }
  }

  /** The index of an aircraft's first row. */
  function FirstIndex(rows: seq<Row>, k: string): (r: nat)
    requires k in Icaos(rows)
    ensures r < |rows| && rows[r].icao == k
    ensures forall j :: 0 <= j < r ==> rows[j].icao != k
  {
    var n := |rows| - 1;
    if k in Icaos(rows[..n]) then
      var r := FirstIndex(rows[..n], k);
      assert rows[r] == rows[..n][r];
      assert forall j :: 0 <= j < r ==> rows[j] == rows[..n][j];
      r
    else
      IcaosCover(rows[..n]);
      assert forall j :: 0 <= j < n ==> rows[j] == rows[..n][j];
      n
  }

  /** An aircraft's rows, in row order. */
  function RowsFor(rows: seq<Row>, k: string): seq<Row>
  {
    if rows == [] then []
    else
      var prev := RowsFor(rows[..|rows| - 1], k);
      if rows[|rows| - 1].icao == k then prev + [rows[|rows| - 1]] else prev
  }

  function Points(rows: seq<Row>): (ps: seq<Point>)
    ensures |ps| == |rows| && forall i :: 0 <= i < |rows| ==> ps[i] == PointOf(rows[i])
  {
    seq(|rows|, i requires 0 <= i < |rows| => PointOf(rows[i]))
  }

  /** An aircraft's track: the metadata of its first row and the points of
      all its rows. */
  function TrackFor(rows: seq<Row>, k: string): Track
    requires k in Icaos(rows)
  {
    Header(rows[FirstIndex(rows, k)]).(positions := Points(RowsFor(rows, k)))
  }

  function TracksFor(rows: seq<Row>, ks: seq<string>): (ts: seq<Track>)
    requires forall k :: k in ks ==> k in Icaos(rows)
    ensures |ts| == |ks| && forall j :: 0 <= j < |ks| ==> ts[j] == TrackFor(rows, ks[j])
  {
    if ks == [] then [] else TracksFor(rows, ks[..|ks| - 1]) + [TrackFor(rows, ks[|ks| - 1])]
  }

  /** The tracks of the response: one per aircraft, in order of first
      appearance. */
  function Shape(rows: seq<Row>): seq<Track> {
    TracksFor(rows, Icaos(rows))
  }

  /** The tracks come in order of their aircraft's first row. */
  lemma ShapeOrder(rows: seq<Row>)
    ensures forall a, b :: 0 <= a < b < |Shape(rows)| ==>
              Shape(rows)[a].icao != Shape(rows)[b].icao &&
              FirstIndex(rows, Icaos(rows)[a]) < FirstIndex(rows, Icaos(rows)[b])
  {
    IcaosOrdered(rows);
  }

  lemma {:induction false} IcaosOrdered(rows: seq<Row>)
    ensures Distinct(Icaos(rows))
    ensures forall a, b :: 0 <= a < b < |Icaos(rows)| ==> FirstIndex(rows, Icaos(rows)[a]) < FirstIndex(rows, Icaos(rows)[b])
  {
    IcaosCover(rows);
    if rows != [] {
      var n := |rows| - 1;
      IcaosOrdered(rows[..n]);
      var prev := Icaos(rows[..n]);
      forall a | 0 <= a < |prev|
        ensures FirstIndex(rows, prev[a]) == FirstIndex(rows[..n], prev[a])
      {
        FirstIndexStable(rows[..n], rows[n], prev[a]);
        assert rows[..n] + [rows[n]] == rows;
      }
    }
  }

  /** Appending a row does not move the first row of an aircraft already
      seen. */
  lemma FirstIndexStable(rows: seq<Row>, row: Row, k: string)
    requires k in Icaos(rows)
    ensures k in Icaos(rows + [row]) && FirstIndex(rows + [row], k) == FirstIndex(rows, k)
  {
    assert (rows + [row])[..|rows|] == rows;
  }

  /** How `Shape` moves when one more row arrives: the aircraft list grows
      by the row's aircraft if new, its track gains the row's point, every
      other track is unchanged. */
  lemma {:induction false} TrackForAppend(rows: seq<Row>, row: Row, k: string)
    requires k in Icaos(rows + [row])
    ensures var rows' := rows + [row];
            k in Icaos(rows) ==>
              TrackFor(rows', k) == TrackFor(rows, k).(positions := TrackFor(rows, k).positions + (if row.icao == k then [PointOf(row)] else []))
    ensures k !in Icaos(rows) ==> k == row.icao && TrackFor(rows + [row], k) == Header(row).(positions := [PointOf(row)])
  {
    var rows' := rows + [row];
    assert rows'[..|rows|] == rows;
    if k in Icaos(rows) {
      FirstIndexStable(rows, row, k);
      assert Points(RowsFor(rows', k)) == Points(RowsFor(rows, k)) + (if row.icao == k then [PointOf(row)] else []);
    } else {
      RowsForAbsent(rows, k);
      assert RowsFor(rows', k) == [row];
    }
  }

  lemma {:induction false} RowsForAbsent(rows: seq<Row>, k: string)
    requires k !in Icaos(rows)
    ensures RowsFor(rows, k) == []
  {
    if rows != [] {
      var n := |rows| - 1;
      assert k !in Icaos(rows[..n]) && rows[n].icao != k;
      RowsForAbsent(rows[..n], k);
    }
  }

  /** The grouping state after `done`: the keys in insertion order and the
      entry of each key. */
  ghost predicate Grouped(done: seq<Row>, order: seq<string>, byIcao: map<string, Track>) {
    && order == Icaos(done)
    && (forall k :: k in byIcao <==> k in order)
    && (forall k :: k in byIcao ==> k in Icaos(done) && byIcao[k] == TrackFor(done, k))
  }

  /** One iteration of the grouping loop keeps the state in step with the
      rows consumed. */
  lemma GroupStep(done: seq<Row>, row: Row, order: seq<string>, byIcao: map<string, Track>)
    requires Grouped(done, order, byIcao)
    ensures var entry := if row.icao in byIcao then byIcao[row.icao] else Header(row);
            Grouped(done + [row],
                    if row.icao in byIcao then order else order + [row.icao],
                    byIcao[row.icao := entry.(positions := entry.positions + [PointOf(row)])])
  {
    var done' := done + [row];
    assert done'[..|done|] == done;
    var entry := if row.icao in byIcao then byIcao[row.icao] else Header(row);
    var byIcao' := byIcao[row.icao := entry.(positions := entry.positions + [PointOf(row)])];
    forall k | k in byIcao'
      ensures k in Icaos(done') && byIcao'[k] == TrackFor(done', k)
    {
      if k in byIcao {
        EntrySeen(done, row, k, byIcao[k]);
      } else {
        EntryNew(done, row);
      }
    }
  }

  /** An aircraft already seen keeps its entry, extended by the row's
      point when the row is its own. */
  lemma EntrySeen(done: seq<Row>, row: Row, k: string, t: Track)
    requires k in Icaos(done) && t == TrackFor(done, k)
    ensures k in Icaos(done + [row])
    ensures TrackFor(done + [row], k) == t.(positions := t.positions + (if row.icao == k then [PointOf(row)] else []))
  {
    FirstIndexStable(done, row, k);
    TrackForAppend(done, row, k);
  }

  /** A new aircraft starts with the row's metadata and point. */
  lemma EntryNew(done: seq<Row>, row: Row)
    requires row.icao !in Icaos(done)
    ensures row.icao in Icaos(done + [row])
    ensures TrackFor(done + [row], row.icao) == Header(row).(positions := [PointOf(row)])
  {
    assert (done + [row])[..|done|] == done;
    TrackForAppend(done, row, row.icao);
  }

  lemma PrefixStep(rows: seq<Row>, i: nat)
    requires i < |rows|
    ensures rows[..i + 1] == rows[..i] + [rows[i]]
  {
  }

  /** The grouping loop: a dictionary from aircraft to its entry, filled in
      row order; the response lists its values in insertion order. */
  method GroupRows(rows: seq<Row>) returns (tracks: seq<Track>)
    ensures tracks == Shape(rows)
  {
    var order: seq<string> := [];
    var byIcao: map<string, Track> := map[];
    for i := 0 to |rows|
      invariant Grouped(rows[..i], order, byIcao)
    {
      var row := rows[i];
      PrefixStep(rows, i);
      GroupStep(rows[..i], row, order, byIcao);
      var entry := if row.icao in byIcao then byIcao[row.icao] else Header(row);
      if row.icao !in byIcao {
        order := order + [row.icao];
      }
      byIcao := byIcao[row.icao := entry.(positions := entry.positions + [PointOf(row)])];
    }
    assert rows[..|rows|] == rows;
    tracks := seq(|order|, j requires 0 <= j < |order| => byIcao[order[j]]);
    ValuesInOrder(rows, order, byIcao, tracks);
  }

  lemma ValuesInOrder(rows: seq<Row>, order: seq<string>, byIcao: map<string, Track>, tracks: seq<Track>)
    requires Grouped(rows, order, byIcao)
    requires |tracks| == |order| && forall j :: 0 <= j < |order| ==> order[j] in byIcao && tracks[j] == byIcao[order[j]]
    ensures tracks == Shape(rows)
  {
  }

  function TotalPositions(ts: seq<Track>): nat {
    if ts == [] then 0 else TotalPositions(ts[..|ts| - 1]) + |ts[|ts| - 1].positions|
  }

  /** One more row adds exactly one position to the tracks of aircraft
      already seen, and only if it belongs to one of them. */
  lemma {:induction false} TotalAppend(rows: seq<Row>, row: Row, ks: seq<string>)
    requires Distinct(ks) && forall k :: k in ks ==> k in Icaos(rows)
    ensures forall k :: k in ks ==> k in Icaos(rows + [row])
    ensures TotalPositions(TracksFor(rows + [row], ks)) ==
            TotalPositions(TracksFor(rows, ks)) + (if row.icao in ks then 1 else 0)
  {
    forall k | k in ks
      ensures k in Icaos(rows + [row])
    {
      FirstIndexStable(rows, row, k);
    }
    if ks != [] {
      var m := |ks| - 1;
      assert forall k :: k in ks[..m] ==> k in ks;
      TotalAppend(rows, row, ks[..m]);
      TrackForAppend(rows, row, ks[m]);
      assert row.icao in ks <==> row.icao in ks[..m] || row.icao == ks[m];
      assert row.icao == ks[m] ==> row.icao !in ks[..m];
    }
  }

  /** Every row lands in exactly one track: the group sizes add up to the
      number of rows. */
  lemma {:induction false} ShapeCountsEveryRow(rows: seq<Row>)
    ensures TotalPositions(Shape(rows)) == |rows|
  {
    if rows != [] {
      var n := |rows| - 1;
      var row := rows[n];
      var ks := Icaos(rows[..n]);
      assert rows[..n] + [row] == rows;
      ShapeCountsEveryRow(rows[..n]);
      IcaosCover(rows[..n]);
      TotalAppend(rows[..n], row, ks);
      if row.icao !in ks {
        TrackForAppend(rows[..n], row, row.icao);
        assert Icaos(rows) == ks + [row.icao];
        assert TracksFor(rows, ks + [row.icao])[..|ks|] == TracksFor(rows, ks);
      }
    }
  }

  /** The response of the bulk endpoint: the tracks, the number of aircraft
      and the number of rows. */
  method ShapeTimelapse(rows: seq<Row>) returns (r: Timelapse)
    ensures r.tracks == Shape(rows)
    ensures r.stats.uniqueAircraft == |Icaos(rows)| && r.stats.totalPositions == |rows|
    ensures TotalPositions(r.tracks) == r.stats.totalPositions
  {
    var tracks := GroupRows(rows);
    ShapeCountsEveryRow(rows);
    r := Timelapse(Stats(|tracks|, |rows|), tracks);
  }
}
