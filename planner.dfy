/** The query planning of the two track endpoints: which storage tier a
    request reads, the default window of the per-aircraft lookup, and the
    WHERE filters and positional parameters of the bulk time-lapse query.
    Times are UTC seconds. */
module Planner {
  import opened Wrappers

  const Hour: int := 60 * 60
  const Day: int := 24 * Hour

  /** The per-aircraft lookup covers the last 24 hours when no start is given. */
  const DefaultTrackWindow: int := 24 * Hour

  const TrackFiveMinuteSpan: int := 30 * Day
  const TrackMinuteSpan: int := 7 * Day
  const BulkFiveMinuteSpan: int := 7 * Day
  const BulkMinuteSpan: int := 2 * Day

  /** The largest `max_tracks` the bulk endpoint accepts. */
  const MaxTracksLimit: int := 10000

  /** The three stored representations of the position stream. */
  datatype Tier = Raw | Minute | FiveMinute

  /** The `resolution` query parameter. */
  datatype Resolution = Full | OneMin | FiveMin | Auto

  /** The raw table is stamped by `time`, the aggregates by `bucket`. */
  function TimeColumn(t: Tier): (c: string)
    ensures c == "time" <==> t == Raw
    ensures t != Raw ==> c == "bucket"
  {
    if t == Raw then "time" else "bucket"
  }

  /** Coarser tiers rank higher. */
  function Coarseness(t: Tier): nat {
    match t
    case Raw => 0
    case Minute => 1
    case FiveMinute => 2
  }

  /** The window of the per-aircraft lookup: `end` defaults to now and
      `start` to 24 hours before the end. */
  function TrackWindow(start: Option<int>, end: Option<int>, now: int): (w: (int, int))
    ensures w.1 == end.GetOr(now)
    ensures start.Some? ==> w.0 == start.value
    ensures start.None? ==> w.1 - w.0 == DefaultTrackWindow
  {
    var e := if end.Some? then end.value else now;
    (if start.Some? then start.value else e - DefaultTrackWindow, e)
  }

  /** The tier of the per-aircraft lookup: an explicit `5min` or a span over
      30 days reads the five-minute tier; else an explicit `1min` or a span
      over 7 days the minute tier; else the raw tier. */
  function TrackTier(resolution: Resolution, span: int): (t: Tier)
  {
    if resolution == FiveMin || span > TrackFiveMinuteSpan then FiveMinute
    else if resolution == OneMin || span > TrackMinuteSpan then Minute
    else Raw
  }

  /** The tier of the bulk lookup: `full` always reads the raw tier; else an
      explicit `5min`, or `auto` over 7 days, the five-minute tier; else an
      explicit `1min`, or `auto` over 2 days, the minute tier; else raw. */
  function BulkTier(resolution: Resolution, span: int): (t: Tier)
  {
    if resolution == Full then Raw
    else if resolution == FiveMin || (resolution == Auto && span > BulkFiveMinuteSpan) then FiveMinute
    else if resolution == OneMin || (resolution == Auto && span > BulkMinuteSpan) then Minute
    else Raw
  }

  /** The tier an explicit resolution names; `auto` names none. */
  function Requested(resolution: Resolution): Tier {
    match resolution
    case OneMin => Minute
    case FiveMin => FiveMinute
    case _ => Raw
  }

  function Coarser(a: Tier, b: Tier): Tier {
    if Coarseness(a) >= Coarseness(b) then a else b
  }

  /** Per-aircraft: the tier read is the coarser of the tier requested and
      the tier the span calls for under the default `full`; an explicit
      resolution can coarsen the span's tier but never refine it. */
  lemma TrackTierIsCoarser(resolution: Resolution, span: int)
    ensures TrackTier(resolution, span) == Coarser(Requested(resolution), TrackTier(Full, span))
  {
  }

  /** Per-aircraft: a longer span never reads a finer tier. */
  lemma TrackTierMonotone(resolution: Resolution, span1: int, span2: int)
    requires span1 <= span2
    ensures Coarseness(TrackTier(resolution, span1)) <= Coarseness(TrackTier(resolution, span2))
  {
  }

  /** Per-aircraft with the default `full`: raw up to 7 days, the minute
      tier up to 30 days, the five-minute tier beyond; an explicit `full`
      does not keep full fidelity over long spans. */
  lemma TrackTierOfFull(span: int)
    ensures TrackTier(Full, span) == Raw <==> span <= TrackMinuteSpan
    ensures TrackTier(Full, span) == FiveMinute <==> span > TrackFiveMinuteSpan
  {
  }

  /** The per-aircraft default window with the default resolution reads the
      raw tier. */
  lemma DefaultTrackLookupIsRaw(end: Option<int>, now: int)
    ensures var w := TrackWindow(None, end, now);
            TrackTier(Full, w.1 - w.0) == Raw
  {
  }

  /** Bulk: every explicit resolution, `full` included, is read as asked
      whatever the span; only `auto` looks at the span, with thresholds of
      2 and 7 days. */
  lemma BulkTierRule(resolution: Resolution, span: int)
    ensures resolution != Auto ==> BulkTier(resolution, span) == Requested(resolution)
    ensures resolution == Auto ==>
              BulkTier(resolution, span) ==
              (if span > BulkFiveMinuteSpan then FiveMinute else if span > BulkMinuteSpan then Minute else Raw)
  {
  }

  /** Bulk `auto` coarsens monotonically with the span. */
  lemma BulkAutoMonotone(span1: int, span2: int)
    requires span1 <= span2
    ensures Coarseness(BulkTier(Auto, span1)) <= Coarseness(BulkTier(Auto, span2))
  {
  }

  /** Bulk `auto` coarsens earlier than the per-aircraft default: never a
      finer tier over the same span, and strictly coarser over 10 days. */
  lemma BulkCoarserThanTrack(span: int)
    ensures Coarseness(TrackTier(Full, span)) <= Coarseness(BulkTier(Auto, span))
    ensures TrackTier(Full, 10 * Day) == Minute && BulkTier(Auto, 10 * Day) == FiveMinute
  {
  }

  /** A positional parameter of the bulk query. */
  datatype Param = TimeParam(time: int) | IntParam(n: int)

  /** A WHERE condition of the bulk query, naming its parameters by their
      1-based `$n` placeholders. */
  datatype Filter =
    | TimeBetween(column: string, low: nat, high: nat)
    | AltAtLeast(slot: nat)
    | AltAtMost(slot: nat)

  /** The bulk query: the tier it reads, its filters (joined with AND), its
      parameters, the placeholder of its LIMIT and whether the military
      condition is added. */
  datatype BulkQuery = BulkQuery(tier: Tier, filters: seq<Filter>, params: seq<Param>,
                                 limitSlot: nat, militaryOnly: bool)

  /** A row the ranking considers: its time column, its altitude and the
      military flag of its left-joined metadata row (None for no row or
      NULL). */
  datatype Candidate = Candidate(time: int, altBaro: Option<int>, isMilitary: Option<bool>)

  /** The value bound to placeholder `$slot`. */
  function Bound(params: seq<Param>, slot: nat): Option<Param> {
    if 1 <= slot <= |params| then Some(params[slot - 1]) else None
  }

  /** A filter holds of a row under the bound parameters; a comparison with
      a NULL altitude is not true. */
  predicate FilterHolds(f: Filter, params: seq<Param>, c: Candidate) {
    match f
    case TimeBetween(_, low, high) =>
      Bound(params, low).Some? && Bound(params, low).value.TimeParam? &&
      Bound(params, high).Some? && Bound(params, high).value.TimeParam? &&
      Bound(params, low).value.time <= c.time <= Bound(params, high).value.time
    case AltAtLeast(slot) =>
      Bound(params, slot).Some? && Bound(params, slot).value.IntParam? &&
      c.altBaro.Some? && c.altBaro.value >= Bound(params, slot).value.n
    case AltAtMost(slot) =>
      Bound(params, slot).Some? && Bound(params, slot).value.IntParam? &&
      c.altBaro.Some? && c.altBaro.value <= Bound(params, slot).value.n
  }

  /** `is_military = true OR is_military IS NULL`. */
  predicate MilitaryKeeps(isMilitary: Option<bool>) {
    isMilitary == Some(true) || isMilitary.None?
  }

  /** The rows the ranking counts. */
  predicate Selects(q: BulkQuery, c: Candidate) {
    (forall i :: 0 <= i < |q.filters| ==> FilterHolds(q.filters[i], q.params, c)) &&
    (q.militaryOnly ==> MilitaryKeeps(c.isMilitary))
  }

  /** The placeholder an altitude filter uses. */
  function SlotOf(f: Filter): nat {
    match f
    case TimeBetween(_, low, _) => low
    case AltAtLeast(slot) => slot
    case AltAtMost(slot) => slot
  }

  /** The filter and parameter construction of the bulk time-lapse query.
      `max_tracks` above 10000 is refused before the handler runs. */
  method BuildBulkQuery(start: int, end: int, resolution: Resolution, maxTracks: int,
                        minAltitude: Option<int>, maxAltitude: Option<int>, militaryOnly: bool)
    returns (q: BulkQuery)
    requires maxTracks <= MaxTracksLimit
    ensures q.tier == BulkTier(resolution, end - start) && q.militaryOnly == militaryOnly
    ensures |q.filters| >= 1 && q.filters[0] == TimeBetween(TimeColumn(q.tier), 1, 2)
    ensures forall i :: 1 <= i < |q.filters| ==> !q.filters[i].TimeBetween? && SlotOf(q.filters[i]) == i + 2
    ensures |q.params| == |q.filters| + 2
    ensures q.limitSlot == |q.params| && q.params[|q.params| - 1] == IntParam(maxTracks)
    ensures forall c :: Selects(q, c) <==>
              && start <= c.time <= end
              && (minAltitude.Some? ==> c.altBaro.Some? && c.altBaro.value >= minAltitude.value)
              && (maxAltitude.Some? ==> c.altBaro.Some? && c.altBaro.value <= maxAltitude.value)
              && (militaryOnly ==> c.isMilitary != Some(false))
  {
    var tier := BulkTier(resolution, end - start);
    var filters := [TimeBetween(TimeColumn(tier), 1, 2)];
    var params := [TimeParam(start), TimeParam(end)];
    var paramIdx := 2;

    if minAltitude.Some? {
      paramIdx := paramIdx + 1;
      filters := filters + [AltAtLeast(paramIdx)];
      params := params + [IntParam(minAltitude.value)];
    }

    if maxAltitude.Some? {
      paramIdx := paramIdx + 1;
      filters := filters + [AltAtMost(paramIdx)];
      params := params + [IntParam(maxAltitude.value)];
    }

    var limitSlot := paramIdx + 1;
    params := params + [IntParam(maxTracks)];
    q := BulkQuery(tier, filters, params, limitSlot, militaryOnly);

    var maxAt := if minAltitude.Some? then 2 else 1;
    forall c
      ensures Selects(q, c) <==>
              && start <= c.time <= end
              && (minAltitude.Some? ==> c.altBaro.Some? && c.altBaro.value >= minAltitude.value)
              && (maxAltitude.Some? ==> c.altBaro.Some? && c.altBaro.value <= maxAltitude.value)
              && (militaryOnly ==> c.isMilitary != Some(false))
    {
      assert FilterHolds(q.filters[0], q.params, c) <==> start <= c.time <= end;
      if minAltitude.Some? {
        assert FilterHolds(q.filters[1], q.params, c) <==> c.altBaro.Some? && c.altBaro.value >= minAltitude.value;
      }
      if maxAltitude.Some? {
        assert FilterHolds(q.filters[maxAt], q.params, c) <==> c.altBaro.Some? && c.altBaro.value <= maxAltitude.value;
      }
      MilitaryFilterKeepsUnknown(c.isMilitary);
    }
  }

  /** The military condition drops exactly the aircraft whose metadata says
      explicitly that they are not military; unknown aircraft stay. */
  lemma MilitaryFilterKeepsUnknown(isMilitary: Option<bool>)
    ensures MilitaryKeeps(isMilitary) <==> isMilitary != Some(false)
  {
    if isMilitary.Some? {
      if isMilitary.value {
        assert isMilitary == Some(true);
      } else {
        assert isMilitary == Some(false);
      }
    }
  }
}
