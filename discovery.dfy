// Stop discovery: `checkStopForBusLine` and `discoverBusStops`.
// The nearby-stops listing and the departure boards come from oracles;
// the two concurrent checks of a window are run one after the other.
module Discovery {
  import opened Common
  import opened Transit
  import opened Store
  import Client
  import Quota

  const BatchSize: nat := 5
  const MaxConcurrentRequests: nat := 2
  /** Pause after each full window of concurrent checks, in ms. */
  const WindowPause: int := 2000
  /** Pause after each batch, in ms. */
  const BatchPause: int := 3000

  /** Why `checkStopForBusLine` throws: `storeStopData` rejected a new
      stop, or `fetchDepartures` gave up. */
  datatype CheckError = StopRejected(storeError: StoreError) | FetchFailed(fetchError: Client.FetchError)

  /** One call of `checkStopForBusLine`: its result, the tables after it,
      and whether it made a departures request. */
  datatype Check = Check(result: Result<bool, CheckError>, tables: Tables, fetched: bool)

  /** The departure rows `checkStopForBusLine` would store for each stop
      id: the line's departures on its board, normalised, or the error
      that fetching the board ended with. */
  type LineRows = string -> Result<seq<DepartureRow>, Client.FetchError>

  /** The rows of one board fetch for stop `id`. */
  function BoardRows(board: Result<Board, Client.FetchError>, id: string, busLine: Option<string>,
                     parse: string -> int): (r: Result<seq<DepartureRow>, Client.FetchError>)
    ensures board.Err? ==> r == Err(board.error)
    ensures board.Ok? ==> r.Ok? && |r.value| == |RelevantDepartures(board.value, busLine)| &&
                          forall i | 0 <= i < |r.value| :: r.value[i].stopId == id
  {
    match board
    case Err(e) => Err(e)
    case Ok(b) => Ok(NormalizeAll(RelevantDepartures(b, busLine), id, parse))
  }

  /** `lines` holds the rows of every board in `boards`. */
  ghost predicate RowsOf(lines: LineRows, boards: Client.Boards, busLine: Option<string>, parse: string -> int)
  {
    forall id {:trigger boards(id)} :: lines(id) == BoardRows(boards(id), id, busLine, parse)
  }

  /** `checkStopForBusLine(stop)`: store the stop if its id is not yet in
      `stops`, fetch its board, store every departure of the line, and
      report whether there was one. */
  function CheckStop(t: Tables, stop: StopLocation, lines: LineRows): (c: Check)
    ensures c.fetched ==> stop.id.Some? && stop.id.value in c.tables.stops
    ensures t.departures <= c.tables.departures
  {
    var known := stop.id.Some? && stop.id.value in t.stops;
    if !known && !ValidStop(stop) then Check(Err(StopRejected(ValidationError)), t, false)
    else
      var id := stop.id.value;
      var stops := if known then t.stops else t.stops[id := RowOf(stop)];
      match lines(id)
      case Err(e) => Check(Err(FetchFailed(e)), Tables(stops, t.departures), true)
      case Ok(rows) =>
        assert (t.departures + rows)[..|t.departures|] == t.departures;
        Check(Ok(|rows| > 0), Tables(stops, t.departures + rows), true)
  }

  /** What `checkStopForBusLine` promises: it requests the board exactly
      when the stop is known or valid; it returns normally exactly when
      that request succeeds, and then reports whether a departure of the
      line is on the board, having stored those departures in board
      order; a stop of the line always has a departure row afterwards. */
  lemma CheckStopSpec(t: Tables, stop: StopLocation, boards: Client.Boards, lines: LineRows,
                      busLine: Option<string>, parse: string -> int)
    requires RowsOf(lines, boards, busLine, parse)
    ensures var c := CheckStop(t, stop, lines);
      && (c.fetched <==> (stop.id.Some? && stop.id.value in t.stops) || ValidStop(stop))
      && (!c.fetched ==> c.result == Err(StopRejected(ValidationError)) && c.tables == t)
      && (c.result.Ok? <==> c.fetched && boards(stop.id.value).Ok?)
      && (c.result.Ok? ==>
            (c.result.value <==> RelevantDepartures(boards(stop.id.value).value, busLine) != []) &&
            c.tables.departures ==
              t.departures + NormalizeAll(RelevantDepartures(boards(stop.id.value).value, busLine), stop.id.value, parse))
      && (c.result.Err? ==> c.tables.departures == t.departures)
      && (c.result == Ok(true) ==> HasDepartureFor(c.tables.departures, stop.id.value))
      && (forall id | id in t.stops && stop.id != Some(id) :: c.tables.stops[id] == t.stops[id])
  {
    var c := CheckStop(t, stop, lines);
    if c.fetched {
      var id := stop.id.value;
      assert lines(id) == BoardRows(boards(id), id, busLine, parse);
      if c.result == Ok(true) {
        var rows := lines(id).value;
        assert (t.departures + rows)[|t.departures|] == rows[0];
      }
    }
  }

  /** The running state of `discoverBusStops`: the tables, the two
      counters it logs, the departures requests made so far and the
      request counter and keys after them. */
  datatype Progress = Progress(tables: Tables, discovered: nat, failed: nat, fetches: nat, quota: Quota.QuotaState)

  /** The body of one check in the batch loop: a stop served by the line
      is stored again and counted as discovered; anything thrown on the
      way, including that second store, counts it as failed. */
  function DiscoverStop(p: Progress, stop: StopLocation, lines: LineRows): (q: Progress)
    ensures q.discovered == p.discovered || q.discovered == p.discovered + 1
    ensures q.failed == p.failed || q.failed == p.failed + 1
    ensures q.discovered + q.failed <= p.discovered + p.failed + 1
    ensures (q.fetches == p.fetches && q.quota == p.quota) ||
            (q.fetches == p.fetches + 1 && q.quota == Quota.Tracked(p.quota))
    ensures p.tables.departures <= q.tables.departures
  {
    var c := CheckStop(p.tables, stop, lines);
    var fetches := p.fetches + if c.fetched then 1 else 0;
    var quota := if c.fetched then Quota.Tracked(p.quota) else p.quota;
    if c.result.Err? then Progress(c.tables, p.discovered, p.failed + 1, fetches, quota)
    else if !c.result.value then Progress(c.tables, p.discovered, p.failed, fetches, quota)
    else if !ValidStop(stop) then Progress(c.tables, p.discovered, p.failed + 1, fetches, quota)
    else Progress(Tables(c.tables.stops[stop.id.value := RowOf(stop)], c.tables.departures),
                  p.discovered + 1, p.failed, fetches, quota)
  }

  /** A stop is counted as discovered exactly when it is valid and its
      board lists a departure of the line; it is then stored with its
      listed name and coordinates and has a departure row. */
  lemma DiscoverStopSpec(p: Progress, stop: StopLocation, boards: Client.Boards, lines: LineRows,
                         busLine: Option<string>, parse: string -> int)
    requires RowsOf(lines, boards, busLine, parse)
    ensures var q := DiscoverStop(p, stop, lines);
      && (q.discovered == p.discovered + 1 <==>
            ValidStop(stop) && boards(stop.id.value).Ok? && RelevantDepartures(boards(stop.id.value).value, busLine) != [])
      && (q.discovered > p.discovered ==>
            stop.id.value in q.tables.stops && q.tables.stops[stop.id.value] == RowOf(stop) &&
            HasDepartureFor(q.tables.departures, stop.id.value))
  {
    CheckStopSpec(p.tables, stop, boards, lines, busLine, parse);
  }

  /** A stop that is already stored but is listed without a name still has
      its departures of the line stored, and is then counted as failed,
      because the second `storeStopData` throws. */
  lemma KnownUnnamedStopFailsAfterStoring(p: Progress, stop: StopLocation, boards: Client.Boards, lines: LineRows,
                                          busLine: Option<string>, parse: string -> int)
    requires RowsOf(lines, boards, busLine, parse)
    requires stop.id.Some? && stop.id.value in p.tables.stops && stop.name.None?
    requires boards(stop.id.value).Ok? && RelevantDepartures(boards(stop.id.value).value, busLine) != []
    ensures var q := DiscoverStop(p, stop, lines);
      q.failed == p.failed + 1 && q.discovered == p.discovered &&
      HasDepartureFor(q.tables.departures, stop.id.value)
  {
    CheckStopSpec(p.tables, stop, boards, lines, busLine, parse);
  }

  /** The first `n` listed stops processed in order, one `DiscoverStop`
      each. */
  function DiscoverPrefix(p: Progress, stops: seq<StopLocation>, n: nat, lines: LineRows): (q: Progress)
    requires n <= |stops|
    ensures q.discovered + q.failed <= p.discovered + p.failed + n
    ensures p.discovered <= q.discovered && p.failed <= q.failed
    ensures p.fetches <= q.fetches <= p.fetches + n
    ensures p.tables.departures <= q.tables.departures
    decreases n
  {
    if n == 0 then p
    else DiscoverStop(DiscoverPrefix(p, stops, n - 1, lines), stops[n - 1], lines)
  }

  /** `id` is stored and has a departure row in `t`. */
  predicate Retained(t: Tables, id: string)
  {
    id in t.stops && HasDepartureFor(t.departures, id)
  }

  /** One more check keeps every stored stop, and a stop that has a
      departure row keeps one. */
  lemma DiscoverStopKeeps(before: Progress, stop: StopLocation, lines: LineRows, id: string)
    ensures Retained(before.tables, id) ==> Retained(DiscoverStop(before, stop, lines).tables, id)
  {
    var after := DiscoverStop(before, stop, lines);
    if Retained(before.tables, id) {
      var i :| 0 <= i < |before.tables.departures| && before.tables.departures[i].stopId == id;
      assert after.tables.departures[i] == before.tables.departures[i];
    }
  }

  /** Later states of a run keep every stop stored earlier, and its
      departure rows. */
  lemma {:induction false} DiscoverPrefixKeeps(p: Progress, stops: seq<StopLocation>, k: nat, n: nat,
                                               lines: LineRows, id: string)
    requires k <= n <= |stops|
    requires Retained(DiscoverPrefix(p, stops, k, lines).tables, id)
    ensures Retained(DiscoverPrefix(p, stops, n, lines).tables, id)
    decreases n
  {
    if k < n {
      DiscoverPrefixKeeps(p, stops, k, n - 1, lines, id);
      var before := DiscoverPrefix(p, stops, n - 1, lines);
      DiscoverStopKeeps(before, stops[n - 1], lines, id);
      assert DiscoverPrefix(p, stops, n, lines) == DiscoverStop(before, stops[n - 1], lines);
    }
  }

  /** Every stop counted as discovered ends up stored, with at least one
      departure row, in the tables at the end of discovery. */
  lemma DiscoveredStopsAreStored(p: Progress, stops: seq<StopLocation>, k: nat, boards: Client.Boards,
                                 lines: LineRows, busLine: Option<string>, parse: string -> int)
    requires RowsOf(lines, boards, busLine, parse)
    requires k < |stops|
    requires var before := DiscoverPrefix(p, stops, k, lines);
      DiscoverStop(before, stops[k], lines).discovered > before.discovered
    ensures var last := DiscoverPrefix(p, stops, |stops|, lines);
      stops[k].id.value in last.tables.stops && HasDepartureFor(last.tables.departures, stops[k].id.value)
  {
    DiscoverStopSpec(DiscoverPrefix(p, stops, k, lines), stops[k], boards, lines, busLine, parse);
    DiscoverPrefixKeeps(p, stops, k + 1, |stops|, lines, stops[k].id.value);
  }

  /** The pauses of one batch of `n` checks: one after every full window. */
  function WindowSleeps(n: nat): (r: seq<int>)
    ensures |r| == n / 2
    ensures forall i | 0 <= i < |r| :: r[i] == WindowPause
  {
    seq(n / 2, _ => WindowPause)
  }

  /** The pauses taken after `acc` by the batch loop over `n` remaining
      stops: each batch of up to five brings its window pauses, then the
      pause after the batch. */
  function DiscoverySleepsAfter(acc: seq<int>, n: nat): (r: seq<int>)
    ensures |acc| <= |r| && (n > 0 ==> |acc| < |r|)
    decreases n
  {
    if n == 0 then acc
    else
      var b := if n < BatchSize then n else BatchSize;
      DiscoverySleepsAfter(acc + WindowSleeps(b) + [BatchPause], n - b)
  }

  /** The pauses of the batch loop over `n` listed stops. */
  function DiscoverySleeps(n: nat): (r: seq<int>)
    ensures r == [] <==> n == 0
  {
    DiscoverySleepsAfter([], n)
  }

  /** Five stops make one full batch with two full windows; seven make a
      second batch holding one window and a lone check. */
  lemma DiscoverySleepsExamples()
    ensures DiscoverySleeps(5) == [2000, 2000, 3000]
    ensures DiscoverySleeps(7) == [2000, 2000, 3000, 2000, 3000]
    ensures DiscoverySleeps(1) == [3000]
  {
    assert DiscoverySleepsAfter([2000, 2000, 3000, 2000, 3000], 0) == [2000, 2000, 3000, 2000, 3000];
    assert DiscoverySleepsAfter([2000, 2000, 3000], 2) == [2000, 2000, 3000] + [2000] + [3000];
    assert DiscoverySleepsAfter([], 7) == DiscoverySleepsAfter([] + [2000, 2000] + [3000], 2);
    assert DiscoverySleepsAfter([], 5) == DiscoverySleepsAfter([] + [2000, 2000] + [3000], 0);
    assert DiscoverySleepsAfter([], 1) == DiscoverySleepsAfter([] + [] + [3000], 0);
  }

  /** One batch pause per started batch of five; one window pause per two
      checks of a batch. */
  lemma {:induction false} DiscoverySleepsCount(acc: seq<int>, n: nat)
    ensures |DiscoverySleepsAfter(acc, n)| == |acc| + (n / 5) * 3 + (if n % 5 == 0 then 0 else n % 5 / 2 + 1)
    decreases n
  {
    if n >= BatchSize {
      DiscoverySleepsCount(acc + WindowSleeps(5) + [BatchPause], n - BatchSize);
      assert (n - 5) / 5 == n / 5 - 1 && (n - 5) % 5 == n % 5;
    }
  }

  /** `checkStopForBusLine(stop)` on the database, counting its one
      departures request. */
  method CheckStopForBusLine(db: Database, gov: Quota.QuotaGovernor, stop: StopLocation,
                             replies: string -> nat -> Client.Reply<Board>, ghost boards: Client.Boards,
                             ghost lines: LineRows,
                             busLine: Option<string>, parse: string -> int)
    returns (r: Result<bool, CheckError>)
    requires db.Valid() && gov.Valid()
    requires Client.Fetches(boards, replies) && RowsOf(lines, boards, busLine, parse)
    modifies db, gov
    ensures db.Valid() && gov.Valid()
    ensures var c := CheckStop(old(db.Contents()), stop, lines);
      r == c.result && db.Contents() == c.tables &&
      gov.State() == Quota.TrackMany(old(gov.State()), if c.fetched then 1 else 0)
  {
    ghost var t := db.Contents();
    if !db.HasStop(stop.id) {
      var stored := db.StoreStopData(stop);
      if stored.Fail? {
        return Err(StopRejected(stored.error));
      }
    }
    var id := stop.id.value;
    var board, accessId := Client.FetchDepartures(gov, replies(id));
    if board.Err? {
      return Err(FetchFailed(board.error));
    }
    var relevant := RelevantDepartures(board.value, busLine);
    StoreEach(relevant, id, db, parse);
    r := Ok(|relevant| > 0);
  }

  /** The body run for one stop of a batch. */
  method DiscoverOne(db: Database, gov: Quota.QuotaGovernor, stop: StopLocation,
                     replies: string -> nat -> Client.Reply<Board>, ghost boards: Client.Boards,
                     ghost lines: LineRows,
                     busLine: Option<string>, parse: string -> int, discovered0: nat, failed0: nat, ghost p: Progress)
    returns (discovered: nat, failed: nat)
    requires db.Valid() && gov.Valid()
    requires p.tables == db.Contents() && p.discovered == discovered0 && p.failed == failed0
    requires p.quota == gov.State()
    requires Client.Fetches(boards, replies) && RowsOf(lines, boards, busLine, parse)
    modifies db, gov
    ensures db.Valid() && gov.Valid()
    ensures var q := DiscoverStop(p, stop, lines);
      db.Contents() == q.tables && discovered == q.discovered && failed == q.failed && gov.State() == q.quota
  {
    discovered, failed := discovered0, failed0;
    var served := CheckStopForBusLine(db, gov, stop, replies, boards, lines, busLine, parse);
    if served.Err? {
      failed := failed + 1;
    } else if served.value {
      var stored := db.StoreStopData(stop);
      if stored.Fail? {
        failed := failed + 1;
      } else {
        discovered := discovered + 1;
      }
    }
  }

  /** One batch, `stops.slice(i, end)`: each stop's check joins the
      pending window; a full window is awaited, emptied and followed by a
      pause. */
  method DiscoverBatch(db: Database, gov: Quota.QuotaGovernor, stops: seq<StopLocation>, i: nat, end: nat,
                       replies: string -> nat -> Client.Reply<Board>, ghost boards: Client.Boards,
                       ghost lines: LineRows,
                       busLine: Option<string>, parse: string -> int, discovered0: nat, failed0: nat,
                       ghost p0: Progress)
    returns (discovered: nat, failed: nat, sleeps: seq<int>)
    requires db.Valid() && gov.Valid()
    requires i <= end <= |stops|
    requires var q := DiscoverPrefix(p0, stops, i, lines);
      db.Contents() == q.tables && discovered0 == q.discovered && failed0 == q.failed && gov.State() == q.quota
    requires Client.Fetches(boards, replies) && RowsOf(lines, boards, busLine, parse)
    modifies db, gov
    ensures db.Valid() && gov.Valid()
    ensures var q := DiscoverPrefix(p0, stops, end, lines);
      db.Contents() == q.tables && discovered == q.discovered && failed == q.failed && gov.State() == q.quota
    ensures sleeps == WindowSleeps(end - i)
  {
    discovered, failed, sleeps := discovered0, failed0, [];
    var pending: seq<StopLocation> := [];
    for j := i to end
      invariant db.Valid() && gov.Valid()
      invariant var q := DiscoverPrefix(p0, stops, j, lines);
        db.Contents() == q.tables && discovered == q.discovered && failed == q.failed && gov.State() == q.quota
      invariant |pending| < MaxConcurrentRequests && j - i == 2 * |sleeps| + |pending|
      invariant forall w | 0 <= w < |sleeps| :: sleeps[w] == WindowPause
    {
      discovered, failed := DiscoverOne(db, gov, stops[j], replies, boards, lines, busLine, parse, discovered, failed,
                                        DiscoverPrefix(p0, stops, j, lines));
      pending := pending + [stops[j]];
      if |pending| >= MaxConcurrentRequests {
        pending := [];
        sleeps := sleeps + [WindowPause];
      }
    }
  }

  /** The counts that `discoverBusStops` logs when it completes. */
  datatype Summary = Summary(discovered: nat, failed: nat)

  /** The batch loop over the listed stops. The quota pause at its head
      can never run: the counter is reset whenever it reaches the limit. */
  method DiscoverListed(db: Database, gov: Quota.QuotaGovernor, stops: seq<StopLocation>,
                        replies: string -> nat -> Client.Reply<Board>, ghost boards: Client.Boards,
                        ghost lines: LineRows,
                        busLine: Option<string>, parse: string -> int)
    returns (summary: Summary, sleeps: seq<int>)
    requires db.Valid() && gov.Valid()
    requires Client.Fetches(boards, replies) && RowsOf(lines, boards, busLine, parse)
    modifies db, gov
    ensures db.Valid() && gov.Valid()
    ensures var q := DiscoverPrefix(Progress(old(db.Contents()), 0, 0, 0, old(gov.State())), stops, |stops|, lines);
      db.Contents() == q.tables && summary == Summary(q.discovered, q.failed) && gov.State() == q.quota
    ensures sleeps == DiscoverySleeps(|stops|)
  {
    ghost var p0 := Progress(db.Contents(), 0, 0, 0, gov.State());
    var discovered, failed := 0, 0;
    sleeps := [];
    var i := 0;
    while i < |stops|
      invariant i <= |stops|
      invariant db.Valid() && gov.Valid()
      invariant var q := DiscoverPrefix(p0, stops, i, lines);
        db.Contents() == q.tables && discovered == q.discovered && failed == q.failed && gov.State() == q.quota
      invariant DiscoverySleepsAfter(sleeps, |stops| - i) == DiscoverySleeps(|stops|)
      decreases |stops| - i
    {
      if gov.requestsThisHour >= Quota.MaxRequestsPerHour {
        assert false;
      }
      var end := Min(i + BatchSize, |stops|);
      var windowSleeps;
      discovered, failed, windowSleeps := DiscoverBatch(db, gov, stops, i, end, replies, boards, lines, busLine, parse,
                                                        discovered, failed, p0);
      ghost var before := sleeps;
      sleeps := sleeps + windowSleeps + [BatchPause];
      SleepsStep(before, windowSleeps, sleeps, |stops|, i, end);
      // `i += 5`: `end` is `i + 5` unless that passes the end of the list,
      // where both leave the loop.
      i := end;
    }
    summary := Summary(discovered, failed);
  }

  /** One pass of the batch loop in `DiscoverListed`. */
  lemma SleepsStep(before: seq<int>, window: seq<int>, after: seq<int>, n: nat, i: nat, end: nat)
    requires i < n && end == Min(i + BatchSize, n)
    requires window == WindowSleeps(end - i) && after == before + window + [BatchPause]
    requires DiscoverySleepsAfter(before, n - i) == DiscoverySleeps(n)
    ensures DiscoverySleepsAfter(after, n - end) == DiscoverySleeps(n)
  {
  }

  /** Everything one `discoverBusStops()` call does, given what the
      listing fetch resolved to: its outcome (the error it rethrows, an
      early return, or the counts it logs), the tables and request
      counter after it, and the throttling pauses it took (the retry
      back-off pauses of its fetches are not recorded). */
  datatype DiscoveryRun = DiscoveryRun(result: Result<Option<Summary>, Client.FetchError>, tables: Tables,
                                       quota: Quota.QuotaState, sleeps: seq<int>)

  /** `discoverBusStops` as a function: count the listing request; a
      failed listing is rethrown and a listing without
      `stopLocationOrCoordLocation` returns at once, both with the tables
      untouched; otherwise the batch loop runs over its `StopLocation`
      entries. */
  function DiscoverAll(t: Tables, quota: Quota.QuotaState, listed: Result<NearbyStops, Client.FetchError>,
                       lines: LineRows): (run: DiscoveryRun)
    ensures run.result.Err? <==> listed.Err?
    ensures run.result.Ok? && run.result.value.Some? ==>
      listed.Ok? && listed.value.stopLocationOrCoordLocation.Some? &&
      run.result.value.value.discovered + run.result.value.value.failed <=
      |ListedStops(listed.value.stopLocationOrCoordLocation.value)|
    ensures (run.result.Err? || run.result == Ok(None)) ==> run.tables == t && run.sleeps == []
    ensures t.departures <= run.tables.departures
  {
    var counted := Quota.Tracked(quota);
    if listed.Err? then DiscoveryRun(Err(listed.error), t, counted, [])
    else if listed.value.stopLocationOrCoordLocation.None? then DiscoveryRun(Ok(None), t, counted, [])
    else
      var stops := ListedStops(listed.value.stopLocationOrCoordLocation.value);
      var q := DiscoverPrefix(Progress(t, 0, 0, 0, counted), stops, |stops|, lines);
      DiscoveryRun(Ok(Some(Summary(q.discovered, q.failed))), q.tables, q.quota, DiscoverySleeps(|stops|))
  }

  /** `discoverBusStops`: count and fetch the listing (a failure is
      rethrown), stop at once if it has no `stopLocationOrCoordLocation`,
      otherwise run the batch loop over its `StopLocation` entries. */
  method DiscoverBusStops(db: Database, gov: Quota.QuotaGovernor, listing: nat -> Client.Reply<NearbyStops>,
                          replies: string -> nat -> Client.Reply<Board>, ghost boards: Client.Boards,
                          ghost lines: LineRows, busLine: Option<string>, parse: string -> int)
    returns (r: Result<Option<Summary>, Client.FetchError>, sleeps: seq<int>)
    requires db.Valid() && gov.Valid()
    requires Client.Fetches(boards, replies) && RowsOf(lines, boards, busLine, parse)
    modifies db, gov
    ensures db.Valid() && gov.Valid()
    ensures var run := DiscoverAll(old(db.Contents()), old(gov.State()),
                                   Client.Retry(listing, Client.DefaultMaxRetries, Client.DefaultInitialDelay).result, lines);
      r == run.result && db.Contents() == run.tables && gov.State() == run.quota && sleeps == run.sleeps
  {
    var listed, accessId := Client.FetchStops(gov, listing);
    if listed.Err? {
      return Err(listed.error), [];
    }
    if listed.value.stopLocationOrCoordLocation.None? {
      return Ok(None), [];
    }
    var stops := ListedStops(listed.value.stopLocationOrCoordLocation.value);
    var summary;
    summary, sleeps := DiscoverListed(db, gov, stops, replies, boards, lines, busLine, parse);
    r := Ok(Some(summary));
  }
}
