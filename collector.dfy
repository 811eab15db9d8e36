/** The background collector: its reference-cache fields and their refresh,
    the store step of a tick, and the polling loop with its
    consecutive-failure counter. Sleeps are emitted as a trace of durations
    in seconds; the clock, the downloads and the feeder's answers are
    inputs. */
module Collector {
  import opened Wrappers
  import opened MilitaryCache
  import opened Snapshot
  import opened Store

  /** Consecutive failed fetches that trigger the pause. */
  const MaxConsecutiveErrors: nat := 10

  /** The pause after too many consecutive failures, in seconds. */
  const ErrorPause: nat := 60

  /** The loop refreshes the reference cache when more than this many
      seconds have passed since its last refresh. */
  const RefreshPeriod: int := 24 * 60 * 60

  /** How a tick went for the failure counter: the feeder returned data
      that was stored (or found empty), returned nothing usable, or the
      tick raised. */
  datatype TickOutcome = Stored | NoData | Crashed

  /** A tick's outcome depends only on the feeder's answer: a missing or
      empty answer is no data; otherwise the store step raises exactly when
      the snapshot holds a report with both coordinate keys and a null
      `hex`. */
  function OutcomeOf(feed: Option<FeedDocument>): TickOutcome {
    if feed.None? || !IsTruthy(feed.value) then NoData
    else if StoreRaises(feed.value) then Crashed
    else Stored
  }

  /** The failure counter and the sleeps of one tick. */
  function CounterStep(errors: nat, outcome: TickOutcome, interval: nat): (r: (nat, seq<nat>))
    ensures 1 <= |r.1| <= 2 && r.1[|r.1| - 1] == interval
    ensures |r.1| == 2 <==> outcome == NoData && errors + 1 >= MaxConsecutiveErrors
    ensures |r.1| == 2 ==> r.1[0] == ErrorPause
    ensures outcome == Stored ==> r.0 == 0
    ensures outcome == NoData ==> r.0 == (if errors + 1 >= MaxConsecutiveErrors then 0 else errors + 1)
    ensures outcome == Crashed ==> r.0 == errors + 1
    ensures outcome != Crashed ==> r.0 < MaxConsecutiveErrors
  {
    match outcome
    case Stored => (0, [interval])
    case NoData =>
      if errors + 1 >= MaxConsecutiveErrors then (0, [ErrorPause, interval])
      else (errors + 1, [interval])
    case Crashed => (errors + 1, [interval])
  }

  /** The counter and the sleep trace after a run of ticks. */
  function CounterRun(errors: nat, outcomes: seq<TickOutcome>, interval: nat): (nat, seq<nat>)
  {
    if outcomes == [] then (errors, [])
    else
      var prev := CounterRun(errors, outcomes[..|outcomes| - 1], interval);
      var step := CounterStep(prev.0, outcomes[|outcomes| - 1], interval);
      (step.0, prev.1 + step.1)
  }

  function Failures(n: nat): (r: seq<TickOutcome>)
    ensures |r| == n && forall i :: 0 <= i < n ==> r[i] == NoData
  {
    seq(n, i => NoData)
  }

  function Repeat(d: nat, n: nat): (r: seq<nat>)
    ensures |r| == n && forall i :: 0 <= i < n ==> r[i] == d
  {
    seq(n, i => d)
  }

  /** Below the threshold, failures only count up and each sleeps the poll
      interval. */
  lemma {:induction false} FailuresBelowThreshold(errors: nat, n: nat, interval: nat)
    requires errors + n < MaxConsecutiveErrors
    ensures CounterRun(errors, Failures(n), interval) == (errors + n, Repeat(interval, n))
  {
    if n > 0 {
      assert Failures(n)[..n - 1] == Failures(n - 1);
      FailuresBelowThreshold(errors, n - 1, interval);
      assert Repeat(interval, n - 1) + [interval] == Repeat(interval, n);
    }
  }

  /** Ten consecutive failures from a reset counter: nine poll sleeps, then
      one 60-second pause and a poll sleep, and the counter back at zero. */
  lemma TenFailuresPauseOnce(interval: nat)
    ensures CounterRun(0, Failures(10), interval) == (0, Repeat(interval, 9) + [ErrorPause, interval])
  {
    assert Failures(10)[..9] == Failures(9);
    FailuresBelowThreshold(0, 9, interval);
  }

  /** Any run of failures from a counter below the threshold: the counter
      ends at (errors + n) mod 10 and there is one pause per multiple of
      ten reached, on top of one poll sleep per tick. */
  lemma {:induction false} FailureRun(errors: nat, n: nat, interval: nat)
    requires errors < MaxConsecutiveErrors
    ensures CounterRun(errors, Failures(n), interval).0 == (errors + n) % MaxConsecutiveErrors
    ensures |CounterRun(errors, Failures(n), interval).1| == n + (errors + n) / MaxConsecutiveErrors
  {
    if n > 0 {
      assert Failures(n)[..n - 1] == Failures(n - 1);
      FailureRun(errors, n - 1, interval);
      CountUp(errors + n - 1);
      var prev := CounterRun(errors, Failures(n - 1), interval);
      var step := CounterStep(prev.0, NoData, interval);
      assert CounterRun(errors, Failures(n), interval) == (step.0, prev.1 + step.1);
    }
  }

  /** Which sleeps such a run makes: one poll sleep per tick and one
      60-second pause per multiple of ten reached. */
  lemma FailureSleeps(errors: nat, n: nat, interval: nat)
    requires errors < MaxConsecutiveErrors
    ensures multiset(CounterRun(errors, Failures(n), interval).1) ==
            multiset(Repeat(interval, n)) + multiset(Repeat(ErrorPause, (errors + n) / MaxConsecutiveErrors))
  {
    FailureTrace(errors, Failures(n), interval);
    FailureRun(errors, n, interval);
  }

  /** `trace` holds the poll interval `polls` times, and every other sleep
      in it is a 60-second pause. */
  ghost predicate PollsAndPauses(trace: seq<nat>, polls: nat, interval: nat) {
    |trace| >= polls && multiset(trace) == multiset(Repeat(interval, polls)) + multiset(Repeat(ErrorPause, |trace| - polls))
  }

  /** A run of failures sleeps the poll interval once per tick, and every
      other sleep is a 60-second pause. */
  lemma {:induction false} FailureTrace(errors: nat, outcomes: seq<TickOutcome>, interval: nat)
    requires forall i :: 0 <= i < |outcomes| ==> outcomes[i] == NoData
    ensures PollsAndPauses(CounterRun(errors, outcomes, interval).1, |outcomes|, interval)
  {
    if outcomes != [] {
      var init := outcomes[..|outcomes| - 1];
      FailureTrace(errors, init, interval);
      var pause := CounterRun(errors, init, interval).0 + 1 >= MaxConsecutiveErrors;
      SleepsStep(CounterRun(errors, init, interval).1, CounterRun(errors, outcomes, interval).1,
                 interval, |init|, pause);
    }
  }

  /** One more failing tick adds a poll sleep, and a pause when it reaches
      the threshold, to the sleeps counted so far. */
  lemma SleepsStep(before: seq<nat>, after: seq<nat>, interval: nat, polls: nat, pause: bool)
    requires PollsAndPauses(before, polls, interval)
    requires after == before + (if pause then [ErrorPause, interval] else [interval])
    ensures PollsAndPauses(after, polls + 1, interval)
  {
    var pauses := |before| - polls;
    assert Repeat(interval, polls + 1) == Repeat(interval, polls) + [interval];
    if pause {
      assert |after| - (polls + 1) == pauses + 1;
      assert Repeat(ErrorPause, pauses + 1) == Repeat(ErrorPause, pauses) + [ErrorPause];
    } else {
      assert |after| - (polls + 1) == pauses;
    }
  }

  /** Counting one more failure modulo the threshold. */
  lemma CountUp(m: nat)
    ensures m % MaxConsecutiveErrors + 1 < MaxConsecutiveErrors ==>
              (m + 1) % MaxConsecutiveErrors == m % MaxConsecutiveErrors + 1 &&
              (m + 1) / MaxConsecutiveErrors == m / MaxConsecutiveErrors
    ensures m % MaxConsecutiveErrors + 1 >= MaxConsecutiveErrors ==>
              (m + 1) % MaxConsecutiveErrors == 0 &&
              (m + 1) / MaxConsecutiveErrors == m / MaxConsecutiveErrors + 1
  {
    var q, r := m / MaxConsecutiveErrors, m % MaxConsecutiveErrors;
    assert m == MaxConsecutiveErrors * q + r;
    if r + 1 < MaxConsecutiveErrors {
      assert m + 1 == MaxConsecutiveErrors * q + (r + 1);
    } else {
      assert m + 1 == MaxConsecutiveErrors * (q + 1);
    }
  }

  /** After every tick that did not raise the counter is below the
      threshold, and the trace has at least one poll sleep per tick. */
  lemma {:induction false} CounterBounded(errors: nat, outcomes: seq<TickOutcome>, interval: nat)
    ensures |CounterRun(errors, outcomes, interval).1| >= |outcomes|
    ensures outcomes != [] && outcomes[|outcomes| - 1] != Crashed ==>
              CounterRun(errors, outcomes, interval).0 < MaxConsecutiveErrors
  {
    if outcomes != [] {
      CounterBounded(errors, outcomes[..|outcomes| - 1], interval);
    }
  }

  /** One data-bearing tick resets the counter, whatever it was. */
  lemma SuccessResets(errors: nat, outcomes: seq<TickOutcome>, interval: nat)
    ensures CounterRun(errors, outcomes + [Stored], interval).0 == 0
  {
    assert (outcomes + [Stored])[..|outcomes|] == outcomes;
  }

  /** The inputs of one tick: the clock when it starts, the outcome of the
      reference download if one is made and the clock when it ends, the
      feeder's answer (None for a timeout, error or non-200 status), the
      clock of the store step, and how the database takes the writes. */
  datatype TickInput = TickInput(
    startedAt: int, download: Download, refreshedAt: int,
    feed: Option<FeedDocument>, storedAt: int, write: WriteOutcome)

  function Outcomes(ticks: seq<TickInput>): (r: seq<TickOutcome>)
    ensures |r| == |ticks| && forall i :: 0 <= i < |ticks| ==> r[i] == OutcomeOf(ticks[i].feed)
  {
    seq(|ticks|, i requires 0 <= i < |ticks| => OutcomeOf(ticks[i].feed))
  }

  /** The two tables after the store step carried out `plan` and the
      database took its writes as `write`: the positions are appended
      unless their insert failed, the upserts are applied only when both
      statements committed, and nothing changes without a batch. */
  function AfterStore(plan: StorePlan, write: WriteOutcome, positions: seq<Position>,
                      metadata: MetadataTable, now: int): (r: (seq<Position>, MetadataTable))
    ensures !plan.Write? ==> r == (positions, metadata)
    ensures plan.Write? && write == InsertFailed ==> r == (positions, metadata)
    ensures plan.Write? && write != InsertFailed ==> r.0 == positions + plan.batch.positions
    ensures plan.Write? && write != Committed ==> r.1 == metadata
    ensures plan.Write? && write == Committed ==> r.1 == ApplyUpserts(metadata, plan.batch.updates, now)
  {
    match plan
    case Write(b) =>
      if write == InsertFailed then (positions, metadata)
      else (positions + b.positions, if write == Committed then ApplyUpserts(metadata, b.updates, now) else metadata)
    case _ => (positions, metadata)
  }

  /** What the collector's state is made of, for reasoning about a run:
      the reference cache, the time of the loop's last refresh, and the
      two tables. */
  datatype World = World(cache: CacheState, lastRefresh: int, positions: seq<Position>, metadata: MetadataTable)

  /** One tick on the state: the refresh when it is due, then the store
      step with the cache as the refresh left it. */
  function TickWorld(w: World, t: TickInput): World {
    var due := t.startedAt - w.lastRefresh > RefreshPeriod;
    var cache := if due then Refresh(w.cache, t.startedAt, t.refreshedAt, t.download).0 else w.cache;
    var tables :=
      if t.feed.Some? && IsTruthy(t.feed.value)
      then AfterStore(PlanStore(t.feed.value, t.storedAt, cache.database), t.write, w.positions, w.metadata, t.storedAt)
      else (w.positions, w.metadata);
    World(cache, if due then t.refreshedAt else w.lastRefresh, tables.0, tables.1)
  }

  /** The state after a run of ticks. */
  function RunWorld(w: World, ticks: seq<TickInput>): World {
    if ticks == [] then w else TickWorld(RunWorld(w, ticks[..|ticks| - 1]), ticks[|ticks| - 1])
  }

  /** The collector object: its reference-cache fields, its running flag
      and poll interval, and the database it writes to. */
  class TrackCollector {
    var militaryDatabase: Option<MilitaryTable>
    var militaryDbLastUpdated: Option<int>
    var militaryDbLoading: bool
    var running: bool
    const collectionInterval: nat
    const db: Database

    ghost predicate Valid()
      reads this, db
    {
      db.Valid()
    }

    /** The cache fields as one value. */
    function Cache(): CacheState
      reads this
    {
      CacheState(militaryDatabase, militaryDbLastUpdated, militaryDbLoading)
    }

    /** A collector that has not loaded the reference cache yet. */
    constructor (interval: nat, db: Database)
      requires db.Valid()
      ensures Valid() && running && collectionInterval == interval && this.db == db
      ensures Cache() == CacheState(None, None, false)
    {
      militaryDatabase := None;
      militaryDbLastUpdated := None;
      militaryDbLoading := false;
      running := true;
      collectionInterval := interval;
      this.db := db;
    }

    /** The start of `load_military_database`, up to the download: the
        single-flight guard and the 24-hour freshness check. */
    method BeginLoad(now: int) returns (start: Start)
      modifies this
      ensures (start, Cache()) == BeginRefresh(old(Cache()), now)
      ensures running == old(running)
    {
      if militaryDbLoading {
        return AlreadyLoading;
      }
      militaryDbLoading := true;
      if militaryDatabase.Some? && militaryDbLastUpdated.Some? && now - militaryDbLastUpdated.value < CacheLifetime {
        militaryDbLoading := false;
        return StillFresh;
      }
      return MustDownload;
    }

    /** The rest of `load_military_database`, once the download ended at
        time `at` with `d`. */
    method FinishLoad(at: int, d: Download) returns (ok: bool)
      requires militaryDbLoading
      modifies this
      ensures (Cache(), ok) == FinishRefresh(old(Cache()), at, d)
      ensures running == old(running)
    {
      match d {
        case Response(status, doc) =>
          if status == 200 {
            var table := BuildMilitaryTable(doc);
            militaryDatabase := Some(table);
            militaryDbLastUpdated := Some(at);
            ok := true;
          } else {
            militaryDatabase := Some(map[]);
            militaryDbLastUpdated := Some(at);
            ok := false;
          }
        case Timeout =>
          militaryDatabase := Some(map[]);
          militaryDbLastUpdated := Some(at);
          ok := false;
        case Failure =>
          militaryDatabase := Some(map[]);
          militaryDbLastUpdated := Some(at);
          ok := false;
      }
      militaryDbLoading := false;
    }

    /** `load_military_database` run without interleaving. */
    method LoadMilitaryDatabase(now: int, at: int, d: Download) returns (ok: bool)
      modifies this
      ensures (Cache(), ok) == Refresh(old(Cache()), now, at, d)
      ensures running == old(running)
    {
      var start := BeginLoad(now);
      if start == MustDownload {
        ok := FinishLoad(at, d);
      } else {
        ok := start == StillFresh;
      }
    }

    /** `store_positions` at time `now`: plans the batch from the snapshot
        and the current cache, then performs the writes the database
        accepts. Reports whether the transform raised. */
    method StorePositions(doc: FeedDocument, now: int, write: WriteOutcome) returns (raised: bool)
      requires Valid()
      modifies db
      ensures Valid()
      ensures raised <==> StoreRaises(doc)
      ensures (db.positions, db.metadata) ==
              AfterStore(PlanStore(doc, now, militaryDatabase), write, old(db.positions), old(db.metadata), now)
    {
      raised := false;
      if !IsTruthy(doc) || doc.aircraft.Absent? {
        return;
      }
      var list := Get(doc.aircraft);
      if list.None? || list.value == [] {
        return;
      }
      var batch := CollectBatch(list.value, now, militaryDatabase);
      TransformRaises(list.value, now, militaryDatabase);
      if batch.None? {
        raised := true;
        return;
      }
      var b := batch.value;
      if b.positions == [] {
        return;
      }
      if write == InsertFailed {
        return;
      }
      db.InsertPositions(b.positions);
      if b.updates != [] && write == Committed {
        db.UpsertMetadata(b.updates, now);
      }
    }

    /** One pass of the loop body: refresh the cache when the last refresh
        is more than 24 hours old, take the feeder's answer, store it or
        count a failure, and sleep. */
    method Tick(t: TickInput, errors: nat, lastRefresh: int) returns (errors': nat, lastRefresh': int, sleeps: seq<nat>)
      requires Valid()
      modifies this, db
      ensures Valid() && running == old(running)
      ensures (errors', sleeps) == CounterStep(errors, OutcomeOf(t.feed), collectionInterval)
      ensures lastRefresh' == if t.startedAt - lastRefresh > RefreshPeriod then t.refreshedAt else lastRefresh
      ensures Cache() == if t.startedAt - lastRefresh > RefreshPeriod
                         then Refresh(old(Cache()), t.startedAt, t.refreshedAt, t.download).0
                         else old(Cache())
      ensures t.feed.Some? && IsTruthy(t.feed.value) ==>
                (db.positions, db.metadata) ==
                AfterStore(PlanStore(t.feed.value, t.storedAt, militaryDatabase), t.write,
                           old(db.positions), old(db.metadata), t.storedAt)
      ensures !(t.feed.Some? && IsTruthy(t.feed.value)) ==>
                db.positions == old(db.positions) && db.metadata == old(db.metadata)
      ensures !old(militaryDbLoading) ==> !militaryDbLoading
    {
      lastRefresh' := lastRefresh;
      if t.startedAt - lastRefresh > RefreshPeriod {
        var _ := LoadMilitaryDatabase(t.startedAt, t.refreshedAt, t.download);
        lastRefresh' := t.refreshedAt;
      }
      var data := t.feed;
      if data.Some? && IsTruthy(data.value) {
        var raised := StorePositions(data.value, t.storedAt, t.write);
        if raised {
          // the exception handler: count the failure, no threshold check
          errors' := errors + 1;
          sleeps := [collectionInterval];
          return;
        }
        errors' := 0;
        sleeps := [collectionInterval];
      } else {
        errors' := errors + 1;
        if errors' >= MaxConsecutiveErrors {
          errors' := 0;
          sleeps := [ErrorPause, collectionInterval];
        } else {
          sleeps := [collectionInterval];
        }
      }
    }

    /** `collect_loop` over the ticks that happen while the collector runs,
        starting at `startClock`; returns the sleeps it performs. */
    method CollectLoop(startClock: int, ticks: seq<TickInput>) returns (sleeps: seq<nat>)
      requires Valid()
      modifies this, db
      ensures Valid() && running == old(running)
      ensures sleeps == CounterRun(0, Outcomes(if running then ticks else []), collectionInterval).1
      ensures World(Cache(), RunWorld(World(old(Cache()), startClock, old(db.positions), old(db.metadata)),
                                      if running then ticks else []).lastRefresh, db.positions, db.metadata)
              == RunWorld(World(old(Cache()), startClock, old(db.positions), old(db.metadata)),
                          if running then ticks else [])
      ensures !old(militaryDbLoading) ==> !militaryDbLoading
    {
      ghost var w0 := World(Cache(), startClock, db.positions, db.metadata);
      var errors: nat := 0;
      var lastRefresh := startClock;
      sleeps := [];
      var i := 0;
      while running && i < |ticks|
        invariant 0 <= i <= |ticks| && (!running ==> i == 0)
        invariant Valid() && running == old(running)
        invariant (errors, sleeps) == CounterRun(0, Outcomes(ticks[..i]), collectionInterval)
        invariant World(Cache(), lastRefresh, db.positions, db.metadata) == RunWorld(w0, ticks[..i])
        invariant !old(militaryDbLoading) ==> !militaryDbLoading
      {
        var e, r, s := Tick(ticks[i], errors, lastRefresh);
        assert Outcomes(ticks[..i + 1])[..i] == Outcomes(ticks[..i]);
        assert ticks[..i + 1][..i] == ticks[..i];
        errors, lastRefresh, sleeps := e, r, sleeps + s;
        i := i + 1;
      }
      if running {
        assert ticks[..i] == ticks;
      }
    }

    /** `run`: one refresh of the reference cache, then the loop. */
    method Run(now: int, at: int, d: Download, ticks: seq<TickInput>) returns (ok: bool, sleeps: seq<nat>)
      requires Valid()
      modifies this, db
      ensures Valid() && running == old(running)
      ensures ok == Refresh(old(Cache()), now, at, d).1
      ensures sleeps == CounterRun(0, Outcomes(if running then ticks else []), collectionInterval).1
      ensures World(Cache(), RunWorld(World(Refresh(old(Cache()), now, at, d).0, at, old(db.positions), old(db.metadata)),
                                      if running then ticks else []).lastRefresh, db.positions, db.metadata)
              == RunWorld(World(Refresh(old(Cache()), now, at, d).0, at, old(db.positions), old(db.metadata)),
                          if running then ticks else [])
      ensures !old(militaryDbLoading) ==> !militaryDbLoading
    {
      ok := LoadMilitaryDatabase(now, at, d);
      sleeps := CollectLoop(at, ticks);
    }

    /** `stop`: the loop exits before its next tick. */
    method Stop()
      modifies this
      ensures !running
      ensures Cache() == old(Cache())
    {
      running := false;
    }
  }
}
