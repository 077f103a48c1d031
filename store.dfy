/** The two tables the ingestion writes and the two writers of
    backend/src/app.js: `storeDepartureData` (normalise one raw departure
    and append it) and `storeStopData` (validate, then upsert by id). */
module Store {
  import opened Common
  import opened Transit

  /** A row of `stops` without its key. */
  datatype StopRow = StopRow(name: string, lat: Option<real>, lon: Option<real>)

  /** A row of `departures` as `storeDepartureData` inserts it. Timestamps
      are instants in milliseconds; `created_at` is filled by the database
      and is not part of the model. */
  datatype DepartureRow = DepartureRow(
    stopId: string,
    lineName: Option<string>,
    displayNumber: Option<string>,
    internalName: Option<string>,
    scheduledTime: int,
    actualTime: int,
    delayMinutes: int,
    operator: string,
    operatorShort: string,
    journeyRef: Option<string>,
    journeyStatus: string,
    direction: string,
    directionFlag: string,
    categoryCode: Option<string>,
    categoryOut: Option<string>,
    categoryIn: Option<string>,
    iconFgColor: string,
    iconBgColor: string,
    reachable: bool)

  datatype StoreError =
    | ValidationError        // 'Stop ID and name are required'
    | ForeignKeyViolation    // departures.stop_id REFERENCES stops(id)

  const ValidationMessage: string := "Stop ID and name are required"
  const ForeignKeyMessage: string :=
    "insert or update on table \"departures\" violates foreign key constraint \"departures_stop_id_fkey\""

  function StoreMessage(e: StoreError): string
  {
    match e
    case ValidationError => ValidationMessage
    case ForeignKeyViolation => ForeignKeyMessage
  }

  /** `${departure.date} ${departure.time}`. */
  function ScheduledText(d: RawDeparture): string
  {
    Text(d.date) + " " + Text(d.time)
  }

  /** The real-time stamp only when both `rtDate` and `rtTime` are there,
      otherwise the scheduled one. */
  function ActualText(d: RawDeparture): (s: string)
    ensures Truthy(d.rtDate) && Truthy(d.rtTime) ==> s == d.rtDate.value + " " + d.rtTime.value
    ensures !(Truthy(d.rtDate) && Truthy(d.rtTime)) ==> s == ScheduledText(d)
  {
    if Truthy(d.rtDate) && Truthy(d.rtTime) then Text(d.rtDate) + " " + Text(d.rtTime)
    else ScheduledText(d)
  }

  /** `Math.round(ms / 60000)`: the whole number of minutes nearest to
      `ms`, halves rounded up. */
  function RoundedMinutes(ms: int): (r: int)
    ensures -30000 <= ms - 60000 * r < 30000
  {
    (ms + 30000) / 60000
  }

  /** `Math.round` is determined by its bounds: no other whole number of
      minutes lies within half a minute below-inclusive of `ms`. */
  lemma RoundedMinutesUnique(ms: int, r: int)
    requires -30000 <= ms - 60000 * r < 30000
    ensures r == RoundedMinutes(ms)
  {
  }

  /** The delay column: rounded minutes between the two stamps when
      `rtTime` is truthy, else 0. Only `rtTime` is tested. */
  function DelayMinutes(d: RawDeparture, parse: string -> int): int
  {
    if Truthy(d.rtTime) then RoundedMinutes(parse(ActualText(d)) - parse(ScheduledText(d))) else 0
  }

  /** The nested `.hex` of an optional colour, or `''`. */
  function HexOr(c: Option<Color>): string
  {
    if c.Some? then OrElse(c.value.hex, "") else ""
  }

  /** The row `storeDepartureData(departure, stopId)` inserts. `parse`
      stands for `new Date(text).getTime()`. */
  function Normalize(d: RawDeparture, stopId: string, parse: string -> int): (row: DepartureRow)
    ensures row.stopId == stopId
    ensures row.scheduledTime == parse(ScheduledText(d))
    ensures !(Truthy(d.rtDate) && Truthy(d.rtTime)) ==> row.actualTime == row.scheduledTime && row.delayMinutes == 0
    ensures Truthy(d.rtTime) ==> -30000 <= (row.actualTime - row.scheduledTime) - 60000 * row.delayMinutes < 30000
    ensures !Truthy(d.rtTime) ==> row.delayMinutes == 0
    ensures row.actualTime == parse(ActualText(d))
    ensures Truthy(d.rtDate) && Truthy(d.rtTime) ==> row.actualTime == parse(d.rtDate.value + " " + d.rtTime.value)
    ensures var p := ChosenProduct(d);
      && row.lineName == p.line && row.displayNumber == p.displayNumber && row.internalName == p.internalName
      && row.categoryCode == p.catCode && row.categoryOut == p.catOut && row.categoryIn == p.catIn
    ensures var p := ChosenProduct(d);
      && (p.operatorInfo.None? ==> row.operator == "Unknown" && row.operatorShort == "")
      && (p.operatorInfo.Some? ==> row.operator == OrElse(p.operatorInfo.value.name, "Unknown")
                                   && row.operatorShort == OrElse(p.operatorInfo.value.nameS, ""))
    ensures d.journeyDetailRef.None? ==> row.journeyRef.None?
    ensures d.journeyDetailRef.Some? ==> row.journeyRef == d.journeyDetailRef.value.reference
    ensures row.journeyStatus == OrElse(d.journeyStatus, "Unknown")
    ensures row.direction == OrElse(d.direction, "") && row.directionFlag == OrElse(d.directionFlag, "")
    ensures var p := ChosenProduct(d);
      && (p.icon.Some? && p.icon.value.foregroundColor.Some? ==>
            row.iconFgColor == OrElse(p.icon.value.foregroundColor.value.hex, ""))
      && (p.icon.Some? && p.icon.value.backgroundColor.Some? ==>
            row.iconBgColor == OrElse(p.icon.value.backgroundColor.value.hex, ""))
      && (!(p.icon.Some? && p.icon.value.foregroundColor.Some?) ==> row.iconFgColor == "")
      && (!(p.icon.Some? && p.icon.value.backgroundColor.Some?) ==> row.iconBgColor == "")
    ensures row.operator != "" && row.journeyStatus != ""
    ensures row.reachable <==> d.reachable == Some(true)
  {
    var product := ChosenProduct(d);
    var icon := if product.icon.Some? then product.icon.value else Icon(None, None);
    var operatorInfo := if product.operatorInfo.Some? then product.operatorInfo.value else OperatorInfo(None, None);
    DepartureRow(
      stopId,
      product.line,
      product.displayNumber,
      product.internalName,
      parse(ScheduledText(d)),
      parse(ActualText(d)),
      DelayMinutes(d, parse),
      OrElse(operatorInfo.name, "Unknown"),
      OrElse(operatorInfo.nameS, ""),
      if d.journeyDetailRef.Some? then d.journeyDetailRef.value.reference else None,
      OrElse(d.journeyStatus, "Unknown"),
      OrElse(d.direction, ""),
      OrElse(d.directionFlag, ""),
      product.catCode,
      product.catOut,
      product.catIn,
      HexOr(icon.foregroundColor),
      HexOr(icon.backgroundColor),
      d.reachable == Some(true))
  }

  /** The delay is not clamped: a departure whose real-time stamp is two
      minutes before its scheduled one is stored with delay -2. */
  lemma DelayCanBeNegative()
    ensures var d := RawDeparture(Some("2024-01-01"), Some("08:02"), Some("2024-01-01"), Some("08:00"),
                                  None, None, None, None, None, None, None);
            var parse := (s: string) => if s == "2024-01-01 08:00" then 0 else 120000;
            Normalize(d, "S1", parse).delayMinutes == -2
  {
    var d := RawDeparture(Some("2024-01-01"), Some("08:02"), Some("2024-01-01"), Some("08:00"),
                          None, None, None, None, None, None, None);
    var parse := (s: string) => if s == "2024-01-01 08:00" then 0 else 120000;
    assert ActualText(d) == "2024-01-01 08:00";
    assert ScheduledText(d) == "2024-01-01 08:02";
    assert RoundedMinutes(-120000) == -2;
  }

  /** Each raw departure normalised in order. */
  function NormalizeAll(ds: seq<RawDeparture>, stopId: string, parse: string -> int): (rows: seq<DepartureRow>)
    ensures |rows| == |ds|
    ensures forall i | 0 <= i < |ds| :: rows[i] == Normalize(ds[i], stopId, parse)
    decreases |ds|
  {
    if ds == [] then [] else NormalizeAll(ds[..|ds| - 1], stopId, parse) + [Normalize(ds[|ds| - 1], stopId, parse)]
  }

  /** `!stop.id || !stop.name` rejects the stop. */
  predicate ValidStop(stop: StopLocation)
  {
    Truthy(stop.id) && Truthy(stop.name)
  }

  /** `stop.coord?.lat ?? null` and `stop.coord?.long ?? null`. */
  function RowOf(stop: StopLocation): (row: StopRow)
    requires ValidStop(stop)
    ensures row.name == stop.name.value
    ensures stop.coord.None? ==> row.lat.None? && row.lon.None?
    ensures stop.coord.Some? ==> row.lat == stop.coord.value.lat && row.lon == stop.coord.value.long
  {
    var lat := if stop.coord.Some? then stop.coord.value.lat else None;
    var lon := if stop.coord.Some? then stop.coord.value.long else None;
    StopRow(stop.name.value, lat, lon)
  }

  /** `storeStopData` on the `stops` table: a stop without a truthy id or
      name is rejected before the table is touched; otherwise
      `INSERT ... ON CONFLICT (id) DO UPDATE` leaves exactly one row per id. */
  function UpsertStop(stops: map<string, StopRow>, stop: StopLocation): (r: Result<map<string, StopRow>, StoreError>)
    ensures r.Ok? <==> ValidStop(stop)
    ensures r.Err? ==> r.error == ValidationError
    ensures r.Ok? ==> r.value.Keys == stops.Keys + {stop.id.value}
    ensures r.Ok? ==> r.value[stop.id.value] == RowOf(stop)
    ensures r.Ok? ==> forall id | id in stops && id != stop.id.value :: r.value[id] == stops[id]
    ensures r.Ok? && stop.id.value in stops ==> |r.value| == |stops|
  {
    if !ValidStop(stop) then Err(ValidationError)
    else Ok(stops[stop.id.value := RowOf(stop)])
  }

  /** Upserting the same stop twice is the same as upserting it once. */
  lemma UpsertStopIdempotent(stops: map<string, StopRow>, stop: StopLocation)
    requires ValidStop(stop)
    ensures UpsertStop(UpsertStop(stops, stop).value, stop) == UpsertStop(stops, stop)
  {
    var once := UpsertStop(stops, stop).value;
    assert once[stop.id.value := RowOf(stop)] == once;
  }

  /** Whether some departure row refers to `stopId`. */
  predicate HasDepartureFor(departures: seq<DepartureRow>, stopId: string)
  {
    exists i :: 0 <= i < |departures| && departures[i].stopId == stopId
  }

  lemma HasDepartureForGrows(departures: seq<DepartureRow>, more: seq<DepartureRow>, stopId: string)
    requires HasDepartureFor(departures, stopId)
    ensures HasDepartureFor(departures + more, stopId)
  {
    var i :| 0 <= i < |departures| && departures[i].stopId == stopId;
    assert (departures + more)[i] == departures[i];
  }

  /** `SELECT DISTINCT stop_id FROM departures WHERE line_name = $1`, in
      order of first appearance. An unset line binds NULL and matches no row. */
  function LineStops(departures: seq<DepartureRow>, busLine: Option<string>): (ids: seq<string>)
    ensures forall i, j | 0 <= i < j < |ids| :: ids[i] != ids[j]
    ensures forall id :: id in ids <==>
      busLine.Some? && exists k :: 0 <= k < |departures| && departures[k].stopId == id && departures[k].lineName == busLine
    decreases |departures|
  {
    if departures == [] then []
    else
      var init := departures[..|departures| - 1];
      var last := departures[|departures| - 1];
      var prev := LineStops(init, busLine);
      assert forall k | 0 <= k < |init| :: init[k] == departures[k];
      if busLine.Some? && last.lineName == busLine && last.stopId !in prev then prev + [last.stopId] else prev
  }

  /** The contents of both tables. */
  datatype Tables = Tables(stops: map<string, StopRow>, departures: seq<DepartureRow>)

  /** The `stops` and `departures` tables. `departures` is append-only. */
  class Database {
    var stops: map<string, StopRow>
    var departures: seq<DepartureRow>

    /** The foreign key: every departure refers to a stored stop. */
    ghost predicate Valid()
      reads this
    {
      forall i | 0 <= i < |departures| :: departures[i].stopId in stops
    }

    constructor ()
      ensures Valid()
      ensures stops == map[] && departures == []
    {
      stops := map[];
      departures := [];
    }

    function Contents(): Tables
      reads this
    {
      Tables(stops, departures)
    }

    /** `SELECT id FROM stops WHERE id = $1` finds a row. */
    function HasStop(id: Option<string>): bool
      reads this
    {
      id.Some? && id.value in stops
    }

    /** `SELECT id FROM stops`: every stored id once, in the order the
        database chooses. */
    method StopIds() returns (ids: seq<string>)
      ensures forall id :: id in ids <==> id in stops
      ensures forall i, j | 0 <= i < j < |ids| :: ids[i] != ids[j]
    {
      ids := [];
      var rest := stops.Keys;
      while rest != {}
        invariant rest <= stops.Keys
        invariant forall id :: id in ids <==> id in stops && id !in rest
        invariant forall i, j | 0 <= i < j < |ids| :: ids[i] != ids[j]
        decreases |rest|
      {
        var id :| id in rest;
        ids := ids + [id];
        rest := rest - {id};
      }
    }

    method StoreStopData(stop: StopLocation) returns (r: Outcome<StoreError>)
      requires Valid()
      modifies this
      ensures Valid()
      ensures var u := UpsertStop(old(stops), stop);
        if u.Ok? then r == Pass && stops == u.value else r == Fail(u.error) && stops == old(stops)
      ensures departures == old(departures)
    {
      if !Truthy(stop.id) || !Truthy(stop.name) {
        return Fail(ValidationError);
      }
      stops := stops[stop.id.value := RowOf(stop)];
      r := Pass;
    }

    method StoreDepartureData(d: RawDeparture, stopId: string, parse: string -> int) returns (r: Outcome<StoreError>)
      requires Valid()
      modifies this
      ensures Valid()
      ensures r.Pass? <==> stopId in stops
      ensures r.Fail? ==> r.error == ForeignKeyViolation
      ensures departures == old(departures) + if r.Pass? then [Normalize(d, stopId, parse)] else []
      ensures stops == old(stops)
    {
      if stopId !in stops {
        return Fail(ForeignKeyViolation);
      }
      departures := departures + [Normalize(d, stopId, parse)];
      r := Pass;
    }
  }

  lemma NormalizeAllSnoc(ds: seq<RawDeparture>, j: int, stopId: string, parse: string -> int)
    requires 0 <= j < |ds|
    ensures NormalizeAll(ds[..j + 1], stopId, parse) == NormalizeAll(ds[..j], stopId, parse) + [Normalize(ds[j], stopId, parse)]
  {
    assert ds[..j + 1][..j] == ds[..j];
  }

  /** An insert loop whose first failed insert throws out of it (the
      monitoring tick, the collection tick, the startup fetch). All inserts
      name one stop, so either all succeed or the first one fails. */
  method StoreAll(ds: seq<RawDeparture>, stopId: string, db: Database, parse: string -> int) returns (ok: bool)
    requires db.Valid()
    modifies db
    ensures db.Valid() && db.stops == old(db.stops)
    ensures ok <==> ds == [] || stopId in db.stops
    ensures db.departures == old(db.departures) + if stopId in db.stops then NormalizeAll(ds, stopId, parse) else []
  {
    for j := 0 to |ds|
      invariant db.Valid() && db.stops == old(db.stops)
      invariant j > 0 ==> stopId in db.stops
      invariant db.departures == old(db.departures) + NormalizeAll(ds[..j], stopId, parse)
    {
      var stored := db.StoreDepartureData(ds[j], stopId, parse);
      if stored.Fail? {
        return false;
      }
      NormalizeAllSnoc(ds, j, stopId, parse);
    }
    assert ds[..|ds|] == ds;
    return true;
  }

  /** The insert loop of `checkStopForBusLine`, which catches and logs
      each failed insert and goes on with the next. */
  method StoreEach(ds: seq<RawDeparture>, stopId: string, db: Database, parse: string -> int)
    requires db.Valid()
    modifies db
    ensures db.Valid() && db.stops == old(db.stops)
    ensures db.departures == old(db.departures) + if stopId in db.stops then NormalizeAll(ds, stopId, parse) else []
  {
    ghost var known := stopId in db.stops;
    for j := 0 to |ds|
      invariant db.Valid() && db.stops == old(db.stops)
      invariant db.departures == old(db.departures) + if known then NormalizeAll(ds[..j], stopId, parse) else []
    {
      var stored := db.StoreDepartureData(ds[j], stopId, parse);
      if known {
        NormalizeAllSnoc(ds, j, stopId, parse);
        assert db.departures == old(db.departures) + (NormalizeAll(ds[..j], stopId, parse) + [Normalize(ds[j], stopId, parse)]);
      }
    }
    assert ds[..|ds|] == ds;
  }
}
