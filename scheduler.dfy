/** The adaptive poll scheduler of backend/src/app.js (`startMonitoring`):
    the `monitoredStops` Map from stop id to `{nextPollTime, interval}`,
    filled once from the departures table and updated in place by a timer
    tick. The clock reading of a tick, the network and the statistics query
    are parameters. */
module Scheduler {
  import opened Common
  import opened Transit
  import opened Store
  import opened Polling
  import Client
  import Quota

  datatype PollState = PollState(nextPollTime: int, interval: int)

  /** How polling one due stop ended: an exception (caught by the tick), or
      success with the recomputed interval. */
  datatype PollOutcome = PollFailed | PollSucceeded(newInterval: int)

  predicate InBounds(interval: int)
  {
    MinPollInterval <= interval <= MaxPollInterval
  }

  /** One stop's entry after a tick at `now`. */
  function Advance(s: PollState, now: int, outcome: PollOutcome): (r: PollState)
    requires outcome.PollSucceeded? ==> InBounds(outcome.newInterval)
    ensures now < s.nextPollTime ==> r == s
    ensures now >= s.nextPollTime ==> r.nextPollTime == now + r.interval && InBounds(r.interval)
    ensures now >= s.nextPollTime && outcome.PollFailed? ==> r.interval == MaxPollInterval
    ensures now >= s.nextPollTime && outcome.PollSucceeded? ==> r.interval == outcome.newInterval
    ensures now >= s.nextPollTime ==> r.nextPollTime >= s.nextPollTime + MinPollInterval
  {
    if now < s.nextPollTime then s
    else if outcome.PollFailed? then PollState(now + MaxPollInterval, MaxPollInterval)
    else PollState(now + outcome.newInterval, outcome.newInterval)
  }

  /** How polling a due stop ends: the fetch fails, or the first insert
      fails because the stop is not in `stops`, or the interval is
      recomputed. */
  function PollOutcomeOf(stopId: string, stops: map<string, StopRow>, fetched: Result<Board, Client.FetchError>,
                         inputs: string -> IntervalInputs): (o: PollOutcome)
    ensures o.PollSucceeded? ==> InBounds(o.newInterval)
    ensures fetched.Err? ==> o == PollFailed
  {
    if fetched.Err? then PollFailed
    else if AllDepartures(fetched.value) != [] && stopId !in stops then PollFailed
    else PollSucceeded(PollingInterval(inputs(stopId).stats, inputs(stopId).hour))
  }

  /** The rows polling a due stop appends: every departure on the board,
      unfiltered, or none when the fetch or the first insert fails. */
  function PollRows(stopId: string, stops: map<string, StopRow>, fetched: Result<Board, Client.FetchError>,
                    parse: string -> int): seq<DepartureRow>
  {
    if fetched.Ok? && stopId in stops then NormalizeAll(AllDepartures(fetched.value), stopId, parse) else []
  }

  /** The rows visiting a stop whose entry is `entry` appends: none when
      it is not yet due. */
  function VisitRows(stopId: string, entry: PollState, now: int, stops: map<string, StopRow>,
                     boards: Client.Boards, parse: string -> int): seq<DepartureRow>
  {
    if now >= entry.nextPollTime then PollRows(stopId, stops, boards(stopId), parse) else []
  }

  /** The requests visiting a stop counts: one when it is due. */
  function VisitCost(entry: PollState, now: int): nat
  {
    if now >= entry.nextPollTime then 1 else 0
  }

  /** The rows a tick appends, stop by stop in Map order. */
  function TickRows(ids: seq<string>, m: map<string, PollState>, now: int, stops: map<string, StopRow>,
                    boards: Client.Boards, parse: string -> int): seq<DepartureRow>
    decreases |ids|
  {
    if ids == [] then []
    else
      var last := ids[|ids| - 1];
      TickRows(ids[..|ids| - 1], m, now, stops, boards, parse)
        + (if last in m then VisitRows(last, m[last], now, stops, boards, parse) else [])
  }

  /** How many stops of `ids` are due, each costing one tracked request. */
  function DueCount(ids: seq<string>, m: map<string, PollState>, now: int): (n: nat)
    ensures n <= |ids|
    decreases |ids|
  {
    if ids == [] then 0
    else
      var last := ids[|ids| - 1];
      DueCount(ids[..|ids| - 1], m, now) + (if last in m then VisitCost(m[last], now) else 0)
  }

  /** Poll one due stop: fetch its board, store every departure, recompute
      the interval. Any exception ends in `PollFailed`. */
  method PollStop(stopId: string, db: Database, gov: Quota.QuotaGovernor, replies: string -> nat -> Client.Reply<Board>,
                  ghost boards: Client.Boards, inputs: string -> IntervalInputs, parse: string -> int) returns (outcome: PollOutcome)
    requires db.Valid() && gov.Valid()
    requires boards(stopId) == Client.Retry(replies(stopId), Client.DefaultMaxRetries, Client.DefaultInitialDelay).result
    modifies db, gov
    ensures db.Valid() && gov.Valid()
    ensures outcome == PollOutcomeOf(stopId, old(db.stops), boards(stopId), inputs)
    ensures db.stops == old(db.stops)
    ensures db.departures == old(db.departures) + PollRows(stopId, old(db.stops), boards(stopId), parse)
    ensures gov.State() == Quota.Tracked(old(gov.State()))
  {
    var fetched, _ := Client.FetchDepartures(gov, replies(stopId));
    if fetched.Err? {
      return PollFailed;
    }
    var stored := StoreAll(AllDepartures(fetched.value), stopId, db, parse);
    if !stored {
      return PollFailed;
    }
    var newInterval := PollingInterval(inputs(stopId).stats, inputs(stopId).hour);
    return PollSucceeded(newInterval);
  }

  /** `monitoredStops` with its iteration order (a Map iterates in
      insertion order; setting an existing key keeps its place). */
  class PollScheduler {
    var monitored: map<string, PollState>
    var order: seq<string>

    ghost predicate Valid()
      reads this
    {
      && (forall i, j | 0 <= i < j < |order| :: order[i] != order[j])
      && (forall id :: id in monitored <==> id in order)
      && (forall id | id in monitored :: InBounds(monitored[id].interval))
    }

    /** Register every stop that has a departure of the line, due at once,
        with the maximum interval. `startMonitoring` reads `Date.now()` once
        per stop; the model gives every entry the same `now`. */
    constructor Start(db: Database, busLine: Option<string>, now: int)
      ensures Valid()
      ensures order == LineStops(db.departures, busLine)
      ensures forall id | id in monitored :: monitored[id] == PollState(now, MaxPollInterval)
    {
      var rows := LineStops(db.departures, busLine);
      var m: map<string, PollState> := map[];
      var o: seq<string> := [];
      for i := 0 to |rows|
        invariant o == rows[..i]
        invariant forall id :: id in m <==> id in o
        invariant forall id | id in m :: m[id] == PollState(now, MaxPollInterval)
      {
        if rows[i] !in m {
          o := o + [rows[i]];
        }
        m := m[rows[i] := PollState(now, MaxPollInterval)];
        assert rows[..i + 1] == rows[..i] + [rows[i]];
      }
      assert rows[..|rows|] == rows;
      monitored, order := m, o;
    }

    /** The body of the tick for one stop: poll it when due and store
        its new entry; an entry not due is left as it is. */
    method Visit(stopId: string, now: int, db: Database, gov: Quota.QuotaGovernor,
                 replies: string -> nat -> Client.Reply<Board>, ghost boards: Client.Boards,
                 inputs: string -> IntervalInputs, parse: string -> int)
      requires Valid() && db.Valid() && gov.Valid()
      requires stopId in monitored
      requires boards(stopId) == Client.Retry(replies(stopId), Client.DefaultMaxRetries, Client.DefaultInitialDelay).result
      modifies this, db, gov
      ensures Valid() && db.Valid() && gov.Valid()
      ensures order == old(order)
      ensures monitored == old(monitored)[stopId := Advance(old(monitored[stopId]), now, PollOutcomeOf(stopId, old(db.stops), boards(stopId), inputs))]
      ensures db.stops == old(db.stops)
      ensures db.departures == old(db.departures) + VisitRows(stopId, old(monitored[stopId]), now, old(db.stops), boards, parse)
      ensures gov.State() == Quota.TrackMany(old(gov.State()), VisitCost(old(monitored[stopId]), now))
    {
      var data := monitored[stopId];
      if now >= data.nextPollTime {
        ghost var before := gov.State();
        var outcome := PollStop(stopId, db, gov, replies, boards, inputs, parse);
        assert Quota.TrackMany(before, 1) == Quota.Tracked(before);
        if outcome.PollSucceeded? {
          assert Advance(data, now, outcome) == PollState(now + outcome.newInterval, outcome.newInterval);
          monitored := monitored[stopId := PollState(now + outcome.newInterval, outcome.newInterval)];
        } else {
          assert Advance(data, now, outcome) == PollState(now + MaxPollInterval, MaxPollInterval);
          monitored := monitored[stopId := PollState(now + MaxPollInterval, MaxPollInterval)];
        }
      } else {
        assert monitored[stopId := data] == monitored;
      }
    }

    /** One timer tick at `now`: every due stop is polled, in Map order;
        success sets `{now + newInterval, newInterval}`, failure
        `{now + MAX, MAX}`; entries not due are untouched. */
    method Tick(now: int, db: Database, gov: Quota.QuotaGovernor, replies: string -> nat -> Client.Reply<Board>,
                ghost boards: Client.Boards, inputs: string -> IntervalInputs, parse: string -> int)
      requires Valid() && db.Valid() && gov.Valid()
      requires Client.Fetches(boards, replies)
      modifies this, db, gov
      ensures Valid() && db.Valid() && gov.Valid()
      ensures order == old(order) && monitored.Keys == old(monitored.Keys)
      ensures forall id | id in monitored ::
        monitored[id] == Advance(old(monitored[id]), now, PollOutcomeOf(id, old(db.stops), boards(id), inputs))
      ensures db.stops == old(db.stops)
      ensures db.departures == old(db.departures) + TickRows(order, old(monitored), now, old(db.stops), boards, parse)
      ensures gov.State() == Quota.TrackMany(old(gov.State()), DueCount(order, old(monitored), now))
    {
      ghost var m0 := monitored;
      ghost var stops0 := db.stops;
      ghost var target := Targets(m0, now, stops0, boards, inputs);
      var i := 0;
      while i < |order|
        invariant 0 <= i <= |order|
        invariant order == old(order) && Valid()
        invariant Visited(monitored, m0, target, order, i)
        invariant db.Valid() && db.stops == stops0
        invariant db.departures == old(db.departures) + TickRows(order[..i], m0, now, stops0, boards, parse)
        invariant gov.Valid() && gov.State() == Quota.TrackMany(old(gov.State()), DueCount(order[..i], m0, now))
      {
        var stopId := order[i];
        ghost var before, rowsBefore, quotaBefore := monitored, db.departures, gov.State();
        Visit(stopId, now, db, gov, replies, boards, inputs, parse);
        assert before[stopId] == m0[stopId];
        TickRowsStep(order, i, m0, now, stops0, boards, parse, old(db.departures), rowsBefore, db.departures);
        DueCountStep(order, i, m0, now, old(gov.State()), quotaBefore, gov.State());
        VisitedStep(before, m0, target, order, i);
        i := i + 1;
      }
      assert order[..|order|] == order;
      VisitedAll(monitored, m0, target, order);
    }
  }

  lemma AppendAssoc<T>(a: seq<T>, b: seq<T>, c: seq<T>)
    ensures (a + b) + c == a + (b + c)
  {
  }

  /** The rows of a tick grow stop by stop. */
  lemma TickRowsStep(order: seq<string>, i: int, m0: map<string, PollState>, now: int, stops0: map<string, StopRow>,
                     boards: Client.Boards, parse: string -> int, rows0: seq<DepartureRow>, rowsBefore: seq<DepartureRow>,
                     rowsAfter: seq<DepartureRow>)
    requires 0 <= i < |order| && order[i] in m0
    requires rowsBefore == rows0 + TickRows(order[..i], m0, now, stops0, boards, parse)
    requires rowsAfter == rowsBefore + VisitRows(order[i], m0[order[i]], now, stops0, boards, parse)
    ensures rowsAfter == rows0 + TickRows(order[..i + 1], m0, now, stops0, boards, parse)
  {
    assert order[..i + 1][..i] == order[..i];
    AppendAssoc(rows0, TickRows(order[..i], m0, now, stops0, boards, parse), VisitRows(order[i], m0[order[i]], now, stops0, boards, parse));
  }

  /** The requests of a tick are counted stop by stop. */
  lemma DueCountStep(order: seq<string>, i: int, m0: map<string, PollState>, now: int,
                     quota0: Quota.QuotaState, quotaBefore: Quota.QuotaState, quotaAfter: Quota.QuotaState)
    requires 0 <= i < |order| && order[i] in m0
    requires quotaBefore == Quota.TrackMany(quota0, DueCount(order[..i], m0, now))
    requires quotaAfter == Quota.TrackMany(quotaBefore, VisitCost(m0[order[i]], now))
    ensures quotaAfter == Quota.TrackMany(quota0, DueCount(order[..i + 1], m0, now))
  {
    assert order[..i + 1][..i] == order[..i];
    Quota.TrackManyAdd(quota0, DueCount(order[..i], m0, now), VisitCost(m0[order[i]], now));
  }

  /** Every entry of `m0` advanced by a tick at `now`. */
  ghost function Targets(m0: map<string, PollState>, now: int, stops: map<string, StopRow>,
                         boards: Client.Boards, inputs: string -> IntervalInputs): (t: map<string, PollState>)
    ensures t.Keys == m0.Keys
    ensures forall id | id in m0 :: t[id] == Advance(m0[id], now, PollOutcomeOf(id, stops, boards(id), inputs))
  {
    map id | id in m0 :: Advance(m0[id], now, PollOutcomeOf(id, stops, boards(id), inputs))
  }

  /** After visiting the first `i` stops of `order`, those carry their
      `target` entry and the rest their original one. */
  ghost predicate Visited(m: map<string, PollState>, m0: map<string, PollState>, target: map<string, PollState>,
                          order: seq<string>, i: int)
  {
    && 0 <= i <= |order|
    && m.Keys == m0.Keys && target.Keys == m0.Keys
    && (forall k | 0 <= k < |order| :: order[k] in m0)
    && (forall k | 0 <= k < i :: m[order[k]] == target[order[k]])
    && (forall k | i <= k < |order| :: m[order[k]] == m0[order[k]])
  }

  lemma VisitedStep(m: map<string, PollState>, m0: map<string, PollState>, target: map<string, PollState>,
                    order: seq<string>, i: int)
    requires Visited(m, m0, target, order, i) && i < |order|
    requires forall a, b | 0 <= a < b < |order| :: order[a] != order[b]
    ensures Visited(m[order[i] := target[order[i]]], m0, target, order, i + 1)
  {
  }

  lemma VisitedAll(m: map<string, PollState>, m0: map<string, PollState>, target: map<string, PollState>,
                   order: seq<string>)
    requires Visited(m, m0, target, order, |order|)
    requires forall id :: id in m0 <==> id in order
    ensures forall id | id in m :: m[id] == target[id]
  {
    forall id | id in m
      ensures m[id] == target[id]
    {
      var k :| 0 <= k < |order| && order[k] == id;
    }
  }
}
