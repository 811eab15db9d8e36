/** The reference (military) dataset cache of the collector: the filter that
    turns the downloaded document into the cache, the time-to-live and
    single-flight rules of a refresh, and the lookup by aircraft identifier. */
module MilitaryCache {
  import opened Wrappers
  import opened Text

  /** One member of the downloaded JSON object: the identifier it is keyed by
      and the array `[tail, type, flag, description?]` stored under it. The
      document is the sequence of its members in iteration order. */
  type DocumentEntry = (string, seq<string>)

  datatype MilitaryEntry = MilitaryEntry(tail: string, aircraftType: string, flag: string, description: string)

  type MilitaryTable = map<string, MilitaryEntry>

  /** The classification flag that marks an aircraft as military. */
  const MilitaryFlag: string := "10"

  /** A loaded cache is reused for 24 hours, in seconds. */
  const CacheLifetime: int := 24 * 60 * 60

  predicate IsMilitaryRecord(info: seq<string>) {
    |info| >= 3 && info[2] == MilitaryFlag
  }

  function EntryOf(info: seq<string>): MilitaryEntry
    requires |info| >= 3
  {
    MilitaryEntry(info[0], info[1], info[2], if |info| > 3 then info[3] else "")
  }

  /** The cache built from a document: the military records only, keyed by
      the upper-cased identifier; a later member overwrites an earlier one
      whose identifier upper-cases to the same key. */
  function MilitaryFilter(doc: seq<DocumentEntry>): MilitaryTable
  {
    if doc == [] then map[]
    else
      var prev := MilitaryFilter(doc[..|doc| - 1]);
      var (hex, info) := doc[|doc| - 1];
      if IsMilitaryRecord(info) then prev[Upper(hex) := EntryOf(info)] else prev
  }

  /** A key is in the cache exactly when some military record's identifier
      upper-cases to it. */
  lemma {:induction false} MilitaryFilterKeys(doc: seq<DocumentEntry>, key: string)
    ensures key in MilitaryFilter(doc) <==>
            exists i :: 0 <= i < |doc| && IsMilitaryRecord(doc[i].1) && Upper(doc[i].0) == key
  {
    if doc != [] {
      var n := |doc| - 1;
      MilitaryFilterKeys(doc[..n], key);
      if !(IsMilitaryRecord(doc[n].1) && Upper(doc[n].0) == key) {
        if key in MilitaryFilter(doc) {
          var i :| 0 <= i < n && IsMilitaryRecord(doc[..n][i].1) && Upper(doc[..n][i].0) == key;
          assert doc[i] == doc[..n][i];
        }
        if exists i :: 0 <= i < |doc| && IsMilitaryRecord(doc[i].1) && Upper(doc[i].0) == key {
          var i :| 0 <= i < |doc| && IsMilitaryRecord(doc[i].1) && Upper(doc[i].0) == key;
          assert doc[..n][i] == doc[i];
        }
      }
    }
  }

  /** `doc[i]` is the last military record whose identifier upper-cases to
      `key`. */
  predicate LastRecordFor(doc: seq<DocumentEntry>, key: string, i: int) {
    0 <= i < |doc| && IsMilitaryRecord(doc[i].1) && Upper(doc[i].0) == key &&
    forall j :: i < j < |doc| && IsMilitaryRecord(doc[j].1) ==> Upper(doc[j].0) != key
  }

  lemma LastRecordExtend(doc: seq<DocumentEntry>, key: string, i: int)
    requires doc != [] && LastRecordFor(doc[..|doc| - 1], key, i)
    requires !(IsMilitaryRecord(doc[|doc| - 1].1) && Upper(doc[|doc| - 1].0) == key)
    ensures LastRecordFor(doc, key, i)
  {
    var n := |doc| - 1;
    assert doc[..n][i] == doc[i];
    forall j | i < j < |doc| && IsMilitaryRecord(doc[j].1)
      ensures Upper(doc[j].0) != key
    {
      if j < n {
        assert doc[..n][j] == doc[j];
      }
    }
  }

  /** The entry cached under a key comes from the LAST military record whose
      identifier upper-cases to it; the flag is "10" and the description is
      empty when the record has no fourth element. */
  lemma {:induction false} MilitaryFilterEntry(doc: seq<DocumentEntry>, key: string)
    requires key in MilitaryFilter(doc)
    ensures exists i :: 0 <= i < |doc| && IsMilitaryRecord(doc[i].1) && Upper(doc[i].0) == key
              && (forall j :: i < j < |doc| && IsMilitaryRecord(doc[j].1) ==> Upper(doc[j].0) != key)
              && MilitaryFilter(doc)[key].tail == doc[i].1[0]
              && MilitaryFilter(doc)[key].aircraftType == doc[i].1[1]
              && MilitaryFilter(doc)[key].flag == MilitaryFlag
              && MilitaryFilter(doc)[key].description == (if |doc[i].1| > 3 then doc[i].1[3] else "")
  {
    var i := LastEntry(doc, key);
  }

  /** The index of the record `MilitaryFilterEntry` speaks of. */
  lemma {:induction false} LastEntry(doc: seq<DocumentEntry>, key: string) returns (i: int)
    requires key in MilitaryFilter(doc)
    ensures LastRecordFor(doc, key, i) && MilitaryFilter(doc)[key] == EntryOf(doc[i].1)
  {
    var n := |doc| - 1;
    if IsMilitaryRecord(doc[n].1) && Upper(doc[n].0) == key {
      i := n;
    } else {
      i := LastEntry(doc[..n], key);
      LastRecordExtend(doc, key, i);
    }
  }

  /** Builds the cache from the document one member at a time, as the
      download handler does. */
  method BuildMilitaryTable(doc: seq<DocumentEntry>) returns (table: MilitaryTable)
    ensures table == MilitaryFilter(doc)
  {
    table := map[];
    for i := 0 to |doc|
      invariant table == MilitaryFilter(doc[..i])
    {
      var (hex, info) := doc[i];
      assert doc[..i + 1][..i] == doc[..i];
      if |info| >= 3 && info[2] == MilitaryFlag {
        table := table[Upper(hex) := MilitaryEntry(info[0], info[1], info[2], if |info| > 3 then info[3] else "")];
      }
    }
    assert doc[..|doc|] == doc;
  }

  /** The cache fields of the collector: the table (absent until the first
      load completes), the time of the last completed load, and the
      load-in-progress flag. */
  datatype CacheState = CacheState(database: Option<MilitaryTable>, lastUpdated: Option<int>, loading: bool)

  /** What the download of the reference document produced: an HTTP
      response with the parsed document, a timeout, or any other failure
      (connection error, undecodable body). */
  datatype Download = Response(status: int, document: seq<DocumentEntry>) | Timeout | Failure

  /** How a refresh ends before the download: another one is in progress,
      the cache is still fresh, or the document must be downloaded. */
  datatype Start = AlreadyLoading | StillFresh | MustDownload

  predicate IsFresh(s: CacheState, now: int) {
    s.database.Some? && s.lastUpdated.Some? && now - s.lastUpdated.value < CacheLifetime
  }

  /** The part of a refresh before its first suspension point: the guard
      and the freshness check; only MustDownload raises the flag. */
  function BeginRefresh(s: CacheState, now: int): (r: (Start, CacheState))
    ensures r.0 == AlreadyLoading <==> s.loading
    ensures r.0 == StillFresh <==> !s.loading && IsFresh(s, now)
    ensures r.0 != MustDownload ==> r.1 == s
    ensures r.0 == MustDownload ==> r.1 == s.(loading := true)
  {
    if s.loading then (AlreadyLoading, s)
    else if IsFresh(s, now) then (StillFresh, s)
    else (MustDownload, s.(loading := true))
  }

  /** The part of a refresh after the download, at time `at`: a 200
      response replaces the cache with its military records and reports
      success; anything else fails closed to an empty cache. The timestamp
      is set and the flag cleared either way. */
  function FinishRefresh(s: CacheState, at: int, d: Download): (r: (CacheState, bool))
    ensures !r.0.loading && r.0.lastUpdated == Some(at) && r.0.database.Some?
    ensures r.1 <==> d.Response? && d.status == 200
    ensures r.1 ==> r.0.database == Some(MilitaryFilter(d.document))
    ensures !r.1 ==> r.0.database == Some(map[])
  {
    match d
    case Response(status, doc) =>
      if status == 200 then (CacheState(Some(MilitaryFilter(doc)), Some(at), false), true)
      else (CacheState(Some(map[]), Some(at), false), false)
    case Timeout => (CacheState(Some(map[]), Some(at), false), false)
    case Failure => (CacheState(Some(map[]), Some(at), false), false)
  }

  /** A whole refresh started at `now` whose download, if any, ends at `at`
      with `d`: the new cache state and whether the cache is usable. */
  function Refresh(s: CacheState, now: int, at: int, d: Download): (r: (CacheState, bool))
    ensures s.loading ==> r == (s, false)
    ensures !s.loading ==> !r.0.loading
    ensures !s.loading && IsFresh(s, now) ==> r == (s, true)
    ensures !s.loading && !IsFresh(s, now) ==> r == FinishRefresh(s, at, d)
  {
    match BeginRefresh(s, now).0
    case AlreadyLoading => (s, false)
    case StillFresh => (s, true)
    case MustDownload => FinishRefresh(BeginRefresh(s, now).1, at, d)
  }

  /** Single flight: while a download is in progress, any other refresh
      returns false at once and changes nothing. */
  lemma SingleFlight(s: CacheState, now: int, now2: int, at2: int, d2: Download)
    requires BeginRefresh(s, now).0 == MustDownload
    ensures Refresh(BeginRefresh(s, now).1, now2, at2, d2) == (BeginRefresh(s, now).1, false)
  {
  }

  /** A refresh that reports failure always leaves a loaded, empty cache
      (fail closed, not fail stale), unless another refresh was running. */
  lemma FailedRefreshIsEmpty(s: CacheState, now: int, at: int, d: Download)
    requires !s.loading && !Refresh(s, now, at, d).1
    ensures Refresh(s, now, at, d).0 == CacheState(Some(map[]), Some(at), false)
  {
  }

  /** `is_military_aircraft`: false when the cache was never loaded or the
      identifier is missing or empty, else whether its upper-cased form is
      a key of the cache. */
  function IsMilitaryAircraft(database: Option<MilitaryTable>, hex: Option<string>): (r: bool)
    ensures database.None? || hex.None? || hex == Some("") ==> !r
    ensures database.Some? && hex.Some? && hex.value != "" ==> (r <==> Upper(hex.value) in database.value)
  {
    if database.None? then false
    else if hex.None? || hex.value == "" then false
    else Upper(hex.value) in database.value
  }

  /** After a refresh that downloaded, lookup is case-insensitive membership
      among the military records of a successful download, and false for
      every identifier after a failed one. */
  lemma LookupAfterRefresh(s: CacheState, now: int, at: int, d: Download, hex: string)
    requires !s.loading && !IsFresh(s, now)
    ensures IsMilitaryAircraft(Refresh(s, now, at, d).0.database, Some(hex)) <==>
            d.Response? && d.status == 200 && hex != "" &&
            exists i :: 0 <= i < |d.document| && IsMilitaryRecord(d.document[i].1) && Upper(d.document[i].0) == Upper(hex)
  {
    if d.Response? && d.status == 200 {
      MilitaryFilterKeys(d.document, Upper(hex));
    }
  }
}
