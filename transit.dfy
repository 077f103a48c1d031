/** The parts of the transit provider's JSON that the ingestion code reads:
    the departure board and the nearby-stops listing. Every field the code
    reaches with `?.` or tests for presence is optional here. */
module Transit {
  import opened Common

  datatype OperatorInfo = OperatorInfo(name: Option<string>, nameS: Option<string>)

  datatype Color = Color(hex: Option<string>)

  datatype Icon = Icon(foregroundColor: Option<Color>, backgroundColor: Option<Color>)

  datatype Product = Product(
    line: Option<string>,
    displayNumber: Option<string>,
    internalName: Option<string>,
    catCode: Option<string>,
    catOut: Option<string>,
    catIn: Option<string>,
    operatorInfo: Option<OperatorInfo>,
    icon: Option<Icon>)

  datatype JourneyDetailRef = JourneyDetailRef(reference: Option<string>)

  /** One entry of a board's `Departure` array. */
  datatype RawDeparture = RawDeparture(
    date: Option<string>,
    time: Option<string>,
    rtDate: Option<string>,
    rtTime: Option<string>,
    productAtStop: Option<Product>,
    product: Option<seq<Product>>,
    journeyDetailRef: Option<JourneyDetailRef>,
    journeyStatus: Option<string>,
    direction: Option<string>,
    directionFlag: Option<string>,
    reachable: Option<bool>)

  /** A departure board; `Departure` may be absent. */
  datatype Board = Board(departure: Option<seq<RawDeparture>>)

  datatype Coord = Coord(lat: Option<real>, long: Option<real>)

  datatype StopLocation = StopLocation(id: Option<string>, name: Option<string>, coord: Option<Coord>)

  /** One entry of `stopLocationOrCoordLocation`; only some carry a stop. */
  datatype Location = Location(stopLocation: Option<StopLocation>)

  datatype NearbyStops = NearbyStops(stopLocationOrCoordLocation: Option<seq<Location>>)

  const NoProduct: Product := Product(None, None, None, None, None, None, None, None)

  /** `departure.Product?.[0]`. */
  function FirstProduct(d: RawDeparture): Option<Product>
  {
    if d.product.Some? && |d.product.value| > 0 then Some(d.product.value[0]) else None
  }

  /** `departure.ProductAtStop || departure.Product?.[0] || {}`. */
  function ChosenProduct(d: RawDeparture): (p: Product)
    ensures d.productAtStop.Some? ==> p == d.productAtStop.value
    ensures d.productAtStop.None? && FirstProduct(d).Some? ==> p == FirstProduct(d).value
    ensures d.productAtStop.None? && FirstProduct(d).None? ==> p == NoProduct
  {
    if d.productAtStop.Some? then d.productAtStop.value
    else if FirstProduct(d).Some? then FirstProduct(d).value
    else NoProduct
  }

  /** `p?.line`: absent when the product is. */
  function LineOf(p: Option<Product>): Option<string>
  {
    if p.Some? then p.value.line else None
  }

  /** The line filter `d.ProductAtStop?.line === BUS_LINE ||
      d.Product?.[0]?.line === BUS_LINE`. `busLine` is `None` when the
      environment variable is unset; `undefined === undefined` then holds. */
  predicate ServesLine(d: RawDeparture, busLine: Option<string>)
  {
    LineOf(d.productAtStop) == busLine || LineOf(FirstProduct(d)) == busLine
  }

  /** `ds.filter(d => ServesLine(d, busLine))`. */
  function FilterLine(ds: seq<RawDeparture>, busLine: Option<string>): (r: seq<RawDeparture>)
    ensures |r| <= |ds|
    ensures forall i | 0 <= i < |r| :: ServesLine(r[i], busLine) && r[i] in ds
    ensures forall i | 0 <= i < |ds| :: ServesLine(ds[i], busLine) ==> ds[i] in r
    decreases |ds|
  {
    if ds == [] then []
    else
      var rest := FilterLine(ds[..|ds| - 1], busLine);
      var d := ds[|ds| - 1];
      assert forall i | 0 <= i < |ds| - 1 :: ds[i] == ds[..|ds| - 1][i];
      if ServesLine(d, busLine) then rest + [d] else rest
  }

  /** Filtering distributes over concatenation, so the kept departures
      are in board order. */
  lemma {:induction false} FilterLineAppend(a: seq<RawDeparture>, b: seq<RawDeparture>, busLine: Option<string>)
    ensures FilterLine(a + b, busLine) == FilterLine(a, busLine) + FilterLine(b, busLine)
    decreases |b|
  {
    if b == [] {
      assert a + b == a;
    } else {
      var b', d := b[..|b| - 1], b[|b| - 1];
      FilterLineAppend(a, b', busLine);
      assert (a + b)[..|a + b| - 1] == a + b' && (a + b)[|a + b| - 1] == d;
      var fa, fb' := FilterLine(a, busLine), FilterLine(b', busLine);
      if ServesLine(d, busLine) {
        assert FilterLine(a + b, busLine) == (fa + fb') + [d];
        assert FilterLine(b, busLine) == fb' + [d];
        assert (fa + fb') + [d] == fa + (fb' + [d]);
      } else {
        assert FilterLine(a + b, busLine) == fa + fb';
        assert FilterLine(b, busLine) == fb';
      }
    }
  }

  /** `board.Departure?.filter(...) || []`: the departures of the line, none
      when the board has no `Departure` array. */
  function RelevantDepartures(board: Board, busLine: Option<string>): (r: seq<RawDeparture>)
    ensures board.departure.None? ==> r == []
    ensures board.departure.Some? ==> r == FilterLine(board.departure.value, busLine)
  {
    if board.departure.Some? then FilterLine(board.departure.value, busLine) else []
  }

  /** Every departure on the board, none when `Departure` is absent. */
  function AllDepartures(board: Board): seq<RawDeparture>
  {
    if board.departure.Some? then board.departure.value else []
  }

  /** `stopLocationOrCoordLocation.filter(l => l.StopLocation).map(l => l.StopLocation)`. */
  function ListedStops(locations: seq<Location>): (r: seq<StopLocation>)
    ensures |r| <= |locations|
    ensures forall i | 0 <= i < |locations| :: locations[i].stopLocation.Some? ==> locations[i].stopLocation.value in r
    ensures forall i | 0 <= i < |r| :: Location(Some(r[i])) in locations
    decreases |locations|
  {
    if locations == [] then []
    else
      var rest := ListedStops(locations[..|locations| - 1]);
      var l := locations[|locations| - 1];
      assert forall i | 0 <= i < |locations| - 1 :: locations[i] == locations[..|locations| - 1][i];
      if l.stopLocation.Some? then rest + [l.stopLocation.value] else rest
  }

  /** One location gives its stop, or nothing when it carries none. */
  lemma ListedStopsSingleton(l: Location)
    ensures l.stopLocation.Some? ==> ListedStops([l]) == [l.stopLocation.value]
    ensures l.stopLocation.None? ==> ListedStops([l]) == []
  {
    assert [l][..0] == [];
  }

  /** Listing distributes over concatenation, so the kept stops keep their
      order and their repetitions. */
  lemma {:induction false} ListedStopsAppend(a: seq<Location>, b: seq<Location>)
    ensures ListedStops(a + b) == ListedStops(a) + ListedStops(b)
    decreases |b|
  {
    if b == [] {
      assert a + b == a;
    } else {
      var b', l := b[..|b| - 1], b[|b| - 1];
      ListedStopsAppend(a, b');
      assert (a + b)[..|a + b| - 1] == a + b' && (a + b)[|a + b| - 1] == l;
      var la, lb' := ListedStops(a), ListedStops(b');
      if l.stopLocation.Some? {
        assert ListedStops(a + b) == (la + lb') + [l.stopLocation.value];
        assert ListedStops(b) == lb' + [l.stopLocation.value];
        assert (la + lb') + [l.stopLocation.value] == la + (lb' + [l.stopLocation.value]);
      } else {
        assert ListedStops(a + b) == la + lb';
        assert ListedStops(b) == lb';
      }
    }
  }
}
