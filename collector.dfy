/** The scheduled collection tick and the startup sequence of
    backend/src/index.js. The `quota_exceeded_until` global is the one field
    of a `Collector`; the clock readings, the network and the database are
    parameters, and the departure rows of each stop come from the oracle of
    the discovery module. */
module Collector {
  import opened Common
  import opened Transit
  import opened Store
  import Client
  import Quota
  import Discovery

  /** The start of the hour after instant `t` (ms since the epoch): the
      `Date` that `setHours(getHours() + 1)` followed by zeroing minutes,
      seconds and milliseconds gives, in a time zone whose offset is a whole
      number of hours. */
  function NextHourStart(t: int): (r: int)
    ensures t < r <= t + 3600000
    ensures r % 3600000 == 0
  {
    (t / 3600000 + 1) * 3600000
  }

  /** The guard at the top of the tick: a pause is set and `now` is before it. */
  predicate Waiting(until: Option<int>, now: int)
  {
    until.Some? && now < until.value
  }

  /** A pause set by a quota error skips exactly the later ticks that fall
      in the same clock hour as the error. */
  lemma PauseLastsTheHour(caughtAt: int, now: int)
    requires caughtAt <= now
    ensures Waiting(Some(NextHourStart(caughtAt)), now) <==> now / 3600000 == caughtAt / 3600000
  {
    var h := caughtAt / 3600000;
    assert h * 3600000 <= caughtAt;
    if now < NextHourStart(caughtAt) {
      assert h * 3600000 <= now < (h + 1) * 3600000;
    } else {
      assert now >= (h + 1) * 3600000;
    }
  }

  /** The insert loop over one stop's rows, which throws at its first
      failed insert: all rows go in, or none when the stop is not in
      `stops`. */
  function Inserted(t: Tables, id: string, rows: seq<DepartureRow>): (r: Option<Tables>)
    ensures r.None? <==> rows != [] && id !in t.stops
    ensures r.Some? ==> r.value.stops == t.stops && r.value.departures == t.departures + rows
  {
    if rows != [] && id !in t.stops then None else Some(Tables(t.stops, t.departures + rows))
  }

  /** The loop state of one tick: the tables, `successCount`, `errorCount`,
      the departures requests made, the request counter, and whether a
      quota error ended the loop. */
  datatype Sweep = Sweep(tables: Tables, successes: nat, errors: nat, fetches: nat,
                         quota: Quota.QuotaState, halted: bool)

  /** One pass of the tick's loop body for stop `id`: fetch its board
      (counted once); a quota error halts the loop; any other fetch or insert
      error is counted; otherwise the rows of the line are stored and each
      counts as a success. A board without departures stores nothing. */
  function CollectStop(c: Sweep, id: string, lines: Discovery.LineRows): (r: Sweep)
    ensures r.fetches == c.fetches + 1 && r.quota == Quota.Tracked(c.quota)
    ensures r.tables.stops == c.tables.stops && c.tables.departures <= r.tables.departures
    ensures |r.tables.departures| + c.successes == |c.tables.departures| + r.successes
    ensures !c.halted && r.halted ==> r.tables == c.tables && r.errors == c.errors
  {
    var counted := c.(fetches := c.fetches + 1, quota := Quota.Tracked(c.quota));
    match lines(id)
    case Err(e) =>
      if Client.IsQuotaMessage(Client.Message(e)) then counted.(halted := true)
      else counted.(errors := c.errors + 1)
    case Ok(rows) =>
      match Inserted(c.tables, id, rows)
      case None => counted.(errors := c.errors + 1)
      case Some(t) => counted.(tables := t, successes := c.successes + |rows|)
  }

  /** What one pass promises, in terms of the board fetched: it halts
      exactly on a quota error; it counts an error exactly when the fetch
      fails otherwise or a row of the line cannot be inserted; and a stored
      stop gets exactly the departures of the line on its board, in board
      order, each counted once. */
  lemma CollectStopSpec(c: Sweep, id: string, boards: Client.Boards, lines: Discovery.LineRows,
                        busLine: Option<string>, parse: string -> int)
    requires Discovery.RowsOf(lines, boards, busLine, parse)
    requires !c.halted
    ensures var r := CollectStop(c, id, lines);
      && (r.halted <==> boards(id).Err? && Client.IsQuotaMessage(Client.Message(boards(id).error)))
      && (r.errors == c.errors + 1 <==>
            (boards(id).Err? && !Client.IsQuotaMessage(Client.Message(boards(id).error))) ||
            (boards(id).Ok? && RelevantDepartures(boards(id).value, busLine) != [] && id !in c.tables.stops))
      && (r.errors == c.errors || r.errors == c.errors + 1)
      && (boards(id).Ok? && id in c.tables.stops ==>
            r.tables.departures == c.tables.departures + NormalizeAll(RelevantDepartures(boards(id).value, busLine), id, parse) &&
            r.successes == c.successes + |RelevantDepartures(boards(id).value, busLine)|)
      && (boards(id).Ok? && boards(id).value.departure.None? ==> r.tables == c.tables && r.successes == c.successes)
  {
    assert lines(id) == Discovery.BoardRows(boards(id), id, busLine, parse);
  }

  /** The tick's loop over the first `n` ids; once halted, nothing more
      happens. */
  function Collect(c0: Sweep, ids: seq<string>, n: nat, lines: Discovery.LineRows): (c: Sweep)
    requires n <= |ids|
    ensures c.tables.stops == c0.tables.stops && c0.tables.departures <= c.tables.departures
    ensures |c.tables.departures| + c0.successes == |c0.tables.departures| + c.successes
    ensures c0.errors <= c.errors && c0.fetches <= c.fetches <= c0.fetches + n
    ensures c0.halted ==> c == c0
  {
    if n == 0 then c0
    else
      var prev := Collect(c0, ids, n - 1, lines);
      if prev.halted then prev else CollectStop(prev, ids[n - 1], lines)
  }

  /** A quota error skips every remaining stop of the tick: no more
      requests, no more rows, no more counts. */
  lemma {:induction false} CollectStopsAtQuota(c0: Sweep, ids: seq<string>, k: nat, n: nat, lines: Discovery.LineRows)
    requires k <= n <= |ids|
    requires Collect(c0, ids, k, lines).halted
    ensures Collect(c0, ids, n, lines) == Collect(c0, ids, k, lines)
    decreases n
  {
    if n > k {
      CollectStopsAtQuota(c0, ids, k, n - 1, lines);
    }
  }

  /** The rows of the line fetched for the first `n` ids, stop after stop;
      a failed fetch contributes none. */
  function FetchedRows(ids: seq<string>, n: nat, lines: Discovery.LineRows): seq<DepartureRow>
    requires n <= |ids|
  {
    if n == 0 then []
    else FetchedRows(ids, n - 1, lines) + (if lines(ids[n - 1]).Ok? then lines(ids[n - 1]).value else [])
  }

  /** How many of the first `n` ids' fetches fail with an error that is not
      a quota error. */
  function FailedFetches(ids: seq<string>, n: nat, lines: Discovery.LineRows): nat
    requires n <= |ids|
  {
    if n == 0 then 0
    else
      var e := lines(ids[n - 1]);
      FailedFetches(ids, n - 1, lines) + if e.Err? && !Client.IsQuotaMessage(Client.Message(e.error)) then 1 else 0
  }

  /** A tick that meets no quota error requests every stop once, each
      request counted once. */
  lemma {:induction false} CollectRequestsEveryStop(c0: Sweep, ids: seq<string>, n: nat, lines: Discovery.LineRows)
    requires n <= |ids|
    requires !Collect(c0, ids, n, lines).halted
    ensures var c := Collect(c0, ids, n, lines);
      c.fetches == c0.fetches + n && c.quota == Quota.TrackMany(c0.quota, n)
  {
    if n > 0 {
      CollectRequestsEveryStop(c0, ids, n - 1, lines);
    }
  }

  /** One pass over a stored stop appends the rows fetched for it and
      counts an error exactly when its fetch fails with no quota error. */
  lemma CollectStopOnKnownStop(c: Sweep, id: string, lines: Discovery.LineRows)
    requires !c.halted && id in c.tables.stops
    ensures var r := CollectStop(c, id, lines);
      && r.tables.departures == c.tables.departures + (if lines(id).Ok? then lines(id).value else [])
      && r.errors == c.errors + (if lines(id).Err? && !Client.IsQuotaMessage(Client.Message(lines(id).error)) then 1 else 0)
  {
  }

  /** A tick over stops that are all in `stops` and that meets no quota
      error stores exactly the fetched rows of the line, and counts each of
      them as a success. */
  lemma {:induction false} CollectStoresFetchedRows(c0: Sweep, ids: seq<string>, n: nat, lines: Discovery.LineRows)
    requires n <= |ids|
    requires forall i | 0 <= i < n :: ids[i] in c0.tables.stops
    requires !Collect(c0, ids, n, lines).halted
    ensures var c := Collect(c0, ids, n, lines);
      && c.tables.departures == c0.tables.departures + FetchedRows(ids, n, lines)
      && c.successes == c0.successes + |FetchedRows(ids, n, lines)|
  {
    if n > 0 {
      CollectStoresFetchedRows(c0, ids, n - 1, lines);
      var prev := Collect(c0, ids, n - 1, lines);
      var id := ids[n - 1];
      assert !prev.halted && Collect(c0, ids, n, lines) == CollectStop(prev, id, lines);
      CollectStopOnKnownStop(prev, id, lines);
      var rows, more := FetchedRows(ids, n - 1, lines), if lines(id).Ok? then lines(id).value else [];
      assert (c0.tables.departures + rows) + more == c0.tables.departures + (rows + more);
    }
  }

  /** A tick over stops that are all in `stops` and that meets no quota
      error counts exactly the failed fetches as errors. */
  lemma {:induction false} CollectCountsFailedFetches(c0: Sweep, ids: seq<string>, n: nat, lines: Discovery.LineRows)
    requires n <= |ids|
    requires forall i | 0 <= i < n :: ids[i] in c0.tables.stops
    requires !Collect(c0, ids, n, lines).halted
    ensures Collect(c0, ids, n, lines).errors == c0.errors + FailedFetches(ids, n, lines)
  {
    if n > 0 {
      CollectCountsFailedFetches(c0, ids, n - 1, lines);
      var prev := Collect(c0, ids, n - 1, lines);
      assert !prev.halted && Collect(c0, ids, n, lines) == CollectStop(prev, ids[n - 1], lines);
      CollectStopOnKnownStop(prev, ids[n - 1], lines);
    }
  }

  /** The stops the tick visits all have a row in `stops`: the query joins
      `departures` with `stops`, and the foreign key holds. */
  lemma LineStopsAreKnown(db: Database, busLine: Option<string>)
    requires db.Valid()
    ensures forall id | id in LineStops(db.departures, busLine) :: id in db.stops
  {
    forall id | id in LineStops(db.departures, busLine)
      ensures id in db.stops
    {
      var k :| 0 <= k < |db.departures| && db.departures[k].stopId == id && db.departures[k].lineName == busLine;
    }
  }

  /** The loop body of the tick for stop `id`, from the loop state `c`:
      returns the new counts and whether a quota error was caught. */
  method CollectOne(db: Database, gov: Quota.QuotaGovernor, id: string, replies: string -> nat -> Client.Reply<Board>,
                    ghost boards: Client.Boards, ghost lines: Discovery.LineRows, busLine: Option<string>,
                    parse: string -> int, successes: int, errors: int, ghost c: Sweep)
    returns (successes': int, errors': int, quotaError: bool)
    requires db.Valid() && gov.Valid()
    requires boards(id) == Client.Retry(replies(id), Client.DefaultMaxRetries, Client.DefaultInitialDelay).result
    requires lines(id) == Discovery.BoardRows(boards(id), id, busLine, parse)
    requires !c.halted && db.Contents() == c.tables && gov.State() == c.quota
    requires successes == c.successes && errors == c.errors
    modifies db, gov
    ensures db.Valid() && gov.Valid()
    ensures var r := CollectStop(c, id, lines);
      && quotaError == r.halted && db.Contents() == r.tables && gov.State() == r.quota
      && successes' == r.successes && errors' == r.errors
  {
    successes', errors', quotaError := successes, errors, false;
    var board, accessId := Client.FetchDepartures(gov, replies(id));
    if board.Err? {
      assert lines(id) == Err(board.error);
      if Client.IsQuotaMessage(Client.Message(board.error)) {
        quotaError := true;
      } else {
        errors' := errors + 1;
      }
    } else {
      var relevant := RelevantDepartures(board.value, busLine);
      ghost var rows := NormalizeAll(relevant, id, parse);
      assert lines(id) == Ok(rows);
      var stored := StoreAll(relevant, id, db, parse);
      if stored {
        successes' := successes + |relevant|;
      } else {
        errors' := errors + 1;
      }
    }
  }

  /** The loop of the tick over `ids`: each stop in turn, until a quota
      error is caught. Returns the counts and whether that happened. */
  method CollectAll(db: Database, gov: Quota.QuotaGovernor, ids: seq<string>,
                    replies: string -> nat -> Client.Reply<Board>, ghost boards: Client.Boards,
                    ghost lines: Discovery.LineRows, busLine: Option<string>, parse: string -> int)
    returns (successes: nat, errors: nat, quotaError: bool)
    requires db.Valid() && gov.Valid()
    requires Client.Fetches(boards, replies) && Discovery.RowsOf(lines, boards, busLine, parse)
    modifies db, gov
    ensures db.Valid() && gov.Valid()
    ensures var c := Collect(Sweep(old(db.Contents()), 0, 0, 0, old(gov.State()), false), ids, |ids|, lines);
      && db.Contents() == c.tables && gov.State() == c.quota && quotaError == c.halted
      && (!c.halted ==> successes == c.successes && errors == c.errors)
  {
    ghost var c0 := Sweep(db.Contents(), 0, 0, 0, gov.State(), false);
    successes, errors, quotaError := 0, 0, false;
    for i := 0 to |ids|
      invariant db.Valid() && gov.Valid()
      invariant var c := Collect(c0, ids, i, lines);
        && !c.halted && db.Contents() == c.tables && gov.State() == c.quota
        && successes == c.successes && errors == c.errors
    {
      var id := ids[i];
      assert lines(id) == Discovery.BoardRows(boards(id), id, busLine, parse);
      successes, errors, quotaError := CollectOne(db, gov, id, replies, boards, lines, busLine, parse,
                                                  successes, errors, Collect(c0, ids, i, lines));
      if quotaError {
        CollectStopsAtQuota(c0, ids, i + 1, |ids|, lines);
        return;
      }
    }
  }

  /** How a tick ended: skipped by the pause, ended by a quota error, or
      through the whole loop with the counts it logs. */
  datatype TickReport = Skipped | QuotaPaused | Completed(successes: nat, errors: nat)

  /** The process state index.js keeps between ticks. */
  class Collector {
    /** `global.quota_exceeded_until`. */
    var quotaExceededUntil: Option<int>

    constructor ()
      ensures quotaExceededUntil == None
    {
      quotaExceededUntil := None;
    }

    /** The cron tick (every two minutes): do nothing while the pause
        lasts; otherwise fetch every stop that has a departure of the line
        and store that line's departures; a quota error sets the pause to the
        start of the next hour after `caughtAt` (the clock when it is caught)
        and ends the tick; any other error of a stop is counted. */
    method Tick(db: Database, gov: Quota.QuotaGovernor, now: int, caughtAt: int,
                replies: string -> nat -> Client.Reply<Board>, ghost boards: Client.Boards,
                ghost lines: Discovery.LineRows, busLine: Option<string>, parse: string -> int)
      returns (report: TickReport)
      requires db.Valid() && gov.Valid()
      requires Client.Fetches(boards, replies) && Discovery.RowsOf(lines, boards, busLine, parse)
      modifies this, db, gov
      ensures db.Valid() && gov.Valid()
      ensures Waiting(old(quotaExceededUntil), now) ==>
        report == Skipped && quotaExceededUntil == old(quotaExceededUntil) &&
        db.Contents() == old(db.Contents()) && gov.State() == old(gov.State())
      ensures !Waiting(old(quotaExceededUntil), now) ==>
        var ids := LineStops(old(db.departures), busLine);
        var c := Collect(Sweep(old(db.Contents()), 0, 0, 0, old(gov.State()), false), ids, |ids|, lines);
        && db.Contents() == c.tables && gov.State() == c.quota
        && (c.halted ==> report == QuotaPaused && quotaExceededUntil == Some(NextHourStart(caughtAt)))
        && (!c.halted ==> report == Completed(c.successes, c.errors) && quotaExceededUntil == old(quotaExceededUntil))
    {
      if Waiting(quotaExceededUntil, now) {
        return Skipped;
      }
      var ids := LineStops(db.departures, busLine);
      var successes, errors, quotaError := CollectAll(db, gov, ids, replies, boards, lines, busLine, parse);
      if quotaError {
        quotaExceededUntil := Some(NextHourStart(caughtAt));
        return QuotaPaused;
      }
      report := Completed(successes, errors);
    }
  }

  /** The startup rule: discovery runs when either table is empty. */
  predicate NeedsDiscovery(stopCount: nat, departureCount: nat)
  {
    stopCount == 0 || departureCount == 0
  }

  /** The state the startup follow-up loop leaves: the tables and the
      request counter. */
  datatype Warmup = Warmup(tables: Tables, quota: Quota.QuotaState)

  /** One pass of the startup follow-up loop for stop `id`: fetch its
      board (counted once) and store its rows of the line; a failed fetch
      or insert is caught and changes no table. */
  function WarmUp(w: Warmup, id: string, lines: Discovery.LineRows): (r: Warmup)
    ensures r.quota == Quota.Tracked(w.quota)
    ensures r.tables.stops == w.tables.stops && w.tables.departures <= r.tables.departures
  {
    var counted := Quota.Tracked(w.quota);
    match lines(id)
    case Err(_) => Warmup(w.tables, counted)
    case Ok(rows) =>
      match Inserted(w.tables, id, rows)
      case None => Warmup(w.tables, counted)
      case Some(u) => Warmup(u, counted)
  }

  /** The startup follow-up loop over the first `n` ids. */
  function InitialFetch(t: Tables, quota: Quota.QuotaState, ids: seq<string>, n: nat,
                        lines: Discovery.LineRows): (w: Warmup)
    requires n <= |ids|
    ensures w.tables.stops == t.stops && t.departures <= w.tables.departures
  {
    if n == 0 then Warmup(t, quota) else WarmUp(InitialFetch(t, quota, ids, n - 1, lines), ids[n - 1], lines)
  }

  /** The body of the startup follow-up loop for stop `id`. */
  method WarmUpStop(db: Database, gov: Quota.QuotaGovernor, id: string, replies: string -> nat -> Client.Reply<Board>,
                    ghost boards: Client.Boards, ghost lines: Discovery.LineRows, busLine: Option<string>,
                    parse: string -> int, ghost w: Warmup)
    requires db.Valid() && gov.Valid()
    requires boards(id) == Client.Retry(replies(id), Client.DefaultMaxRetries, Client.DefaultInitialDelay).result
    requires lines(id) == Discovery.BoardRows(boards(id), id, busLine, parse)
    requires db.Contents() == w.tables && gov.State() == w.quota
    modifies db, gov
    ensures db.Valid() && gov.Valid()
    ensures var r := WarmUp(w, id, lines); db.Contents() == r.tables && gov.State() == r.quota
  {
    var board, accessId := Client.FetchDepartures(gov, replies(id));
    if board.Ok? {
      var relevant := RelevantDepartures(board.value, busLine);
      ghost var rows := NormalizeAll(relevant, id, parse);
      assert lines(id) == Ok(rows);
      var stored := StoreAll(relevant, id, db, parse);
    }
  }

  /** Over stops that are all stored, the follow-up loop requests every
      stop once and stores exactly the fetched rows of the line, whatever
      fails on the way. */
  lemma {:induction false} InitialFetchOverKnownStops(t: Tables, quota: Quota.QuotaState, ids: seq<string>, n: nat,
                                                      lines: Discovery.LineRows)
    requires n <= |ids|
    requires forall i | 0 <= i < n :: ids[i] in t.stops
    ensures var w := InitialFetch(t, quota, ids, n, lines);
      w.tables.departures == t.departures + FetchedRows(ids, n, lines) && w.quota == Quota.TrackMany(quota, n)
  {
    if n > 0 {
      InitialFetchOverKnownStops(t, quota, ids, n - 1, lines);
      var rows := FetchedRows(ids, n - 1, lines);
      if lines(ids[n - 1]).Ok? {
        var more := lines(ids[n - 1]).value;
        assert (t.departures + rows) + more == t.departures + (rows + more);
      }
    }
  }

  /** The startup sequence after `initDatabase`: count both tables; when
      either is empty, run discovery (a rethrown listing error rejects the
      chain and the server never listens) and then fetch every stored
      stop's departures once; otherwise go straight to listening. The
      follow-up requests are later calls than discovery's, with replies of
      their own (`followUp`). Returns
      whether discovery ran, whether the server listens, and the ids the
      follow-up loop visited. */
  method Startup(db: Database, gov: Quota.QuotaGovernor, listing: nat -> Client.Reply<NearbyStops>,
                 replies: string -> nat -> Client.Reply<Board>, ghost boards: Client.Boards,
                 ghost lines: Discovery.LineRows,
                 followUp: string -> nat -> Client.Reply<Board>, ghost followBoards: Client.Boards,
                 ghost followLines: Discovery.LineRows, busLine: Option<string>, parse: string -> int)
    returns (discovered: bool, listening: bool, ids: seq<string>)
    requires db.Valid() && gov.Valid()
    requires Client.Fetches(boards, replies) && Discovery.RowsOf(lines, boards, busLine, parse)
    requires Client.Fetches(followBoards, followUp) && Discovery.RowsOf(followLines, followBoards, busLine, parse)
    modifies db, gov
    ensures db.Valid() && gov.Valid()
    ensures discovered <==> NeedsDiscovery(|old(db.stops)|, |old(db.departures)|)
    ensures !discovered ==> listening && ids == [] && db.Contents() == old(db.Contents()) && gov.State() == old(gov.State())
    ensures discovered ==>
      var run := Discovery.DiscoverAll(old(db.Contents()), old(gov.State()),
                                       Client.Retry(listing, Client.DefaultMaxRetries, Client.DefaultInitialDelay).result, lines);
      && (listening <==> run.result.Ok?)
      && (!listening ==> ids == [] && db.Contents() == run.tables && gov.State() == run.quota)
      && (listening ==>
            (forall id :: id in ids <==> id in run.tables.stops) &&
            (forall i, j | 0 <= i < j < |ids| :: ids[i] != ids[j]) &&
            var w := InitialFetch(run.tables, run.quota, ids, |ids|, followLines);
            db.Contents() == w.tables && gov.State() == w.quota)
  {
    ids := [];
    discovered := NeedsDiscovery(|db.stops|, |db.departures|);
    if !discovered {
      return discovered, true, ids;
    }
    var result, sleeps := Discovery.DiscoverBusStops(db, gov, listing, replies, boards, lines, busLine, parse);
    if result.Err? {
      return discovered, false, ids;
    }
    ghost var t, q := db.Contents(), gov.State();
    ids := db.StopIds();
    for i := 0 to |ids|
      invariant db.Valid() && gov.Valid()
      invariant var w := InitialFetch(t, q, ids, i, followLines); db.Contents() == w.tables && gov.State() == w.quota
    {
      var id := ids[i];
      assert followLines(id) == Discovery.BoardRows(followBoards(id), id, busLine, parse);
      WarmUpStop(db, gov, id, followUp, followBoards, followLines, busLine, parse, InitialFetch(t, q, ids, i, followLines));
    }
    listening := true;
  }
}
