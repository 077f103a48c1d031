/** The grouping step of backend/src/routeAnalysis.js
    (`getRouteDelayAnalysis`): the rows of the per-stop delay query, already
    ordered by direction and stop sequence, are put into one bucket per
    direction. The query itself is an input. node-postgres returns the
    `bigint` and `numeric` columns as text, so those cells are strings. */
module RouteAnalysis {
  import opened Common

  /** One row of the delay query. A NULL `direction_flag` is `None`. */
  datatype RouteRow = RouteRow(
    directionFlag: Option<string>,
    stopSequence: string,
    stopId: string,
    stopName: string,
    avgDelay: string,
    totalDepartures: string,
    delayedDepartures: string,
    delayPercentage: string)

  /** One entry of a direction bucket, as the reduce builds it. */
  datatype StopDelay = StopDelay(
    sequence: string,
    stopId: string,
    stopName: string,
    avgDelay: string,
    totalDepartures: string,
    delayedDepartures: string,
    delayPercentage: string)

  type Analysis = map<string, seq<StopDelay>>

  /** `row.direction_flag || 'unknown'`. */
  function DirectionOf(row: RouteRow): string
  {
    OrElse(row.directionFlag, "unknown")
  }

  /** A NULL or empty flag goes to the bucket 'unknown'; any other flag
      names its own bucket. */
  lemma FalsyFlagIsUnknown(row: RouteRow)
    ensures !Truthy(row.directionFlag) ==> DirectionOf(row) == "unknown"
    ensures Truthy(row.directionFlag) ==> DirectionOf(row) == row.directionFlag.value
  {
  }

  /** The object pushed for a row: each column under its camel-case name,
      the direction left out. */
  function Entry(row: RouteRow): StopDelay
  {
    StopDelay(row.stopSequence, row.stopId, row.stopName, row.avgDelay,
              row.totalDepartures, row.delayedDepartures, row.delayPercentage)
  }

  /** The row an entry came from, given the row's flag. */
  function RowOf(entry: StopDelay, directionFlag: Option<string>): RouteRow
  {
    RouteRow(directionFlag, entry.sequence, entry.stopId, entry.stopName, entry.avgDelay,
             entry.totalDepartures, entry.delayedDepartures, entry.delayPercentage)
  }

  /** The renaming loses nothing: an entry and its row's flag give the row
      back, so two rows with one flag have equal entries only when they are
      equal. */
  lemma EntryKeepsEveryColumn(row: RouteRow, other: RouteRow)
    ensures RowOf(Entry(row), row.directionFlag) == row
    ensures row.directionFlag == other.directionFlag && Entry(row) == Entry(other) ==> row == other
  {
    if row.directionFlag == other.directionFlag && Entry(row) == Entry(other) {
      assert RowOf(Entry(row), row.directionFlag) == RowOf(Entry(other), other.directionFlag);
    }
  }

  /** The reduce as a fold over the rows: append the row's entry to its
      direction's bucket, creating the bucket first when it is missing. */
  function Grouped(rows: seq<RouteRow>): (acc: Analysis)
    decreases |rows|
  {
    if rows == [] then map[]
    else
      var prev := Grouped(rows[..|rows| - 1]);
      var row := rows[|rows| - 1];
      var direction := DirectionOf(row);
      var bucket := if direction in prev then prev[direction] else [];
      prev[direction := bucket + [Entry(row)]]
  }

  /** The entries of the rows whose direction is `direction`, in row
      order: what one bucket should hold. */
  function BucketOf(rows: seq<RouteRow>, direction: string): (bucket: seq<StopDelay>)
    ensures |bucket| <= |rows|
    decreases |rows|
  {
    if rows == [] then []
    else
      var row := rows[|rows| - 1];
      BucketOf(rows[..|rows| - 1], direction) + if DirectionOf(row) == direction then [Entry(row)] else []
  }

  /** A bucket is empty exactly when no row has its direction. */
  lemma {:induction false} BucketOfEmpty(rows: seq<RouteRow>, direction: string)
    ensures BucketOf(rows, direction) == [] <==> forall i | 0 <= i < |rows| :: DirectionOf(rows[i]) != direction
    decreases |rows|
  {
    if rows != [] {
      var init := rows[..|rows| - 1];
      BucketOfEmpty(init, direction);
      assert forall i | 0 <= i < |init| :: init[i] == rows[i];
    }
  }

  /** The reduce builds exactly the buckets of the directions that occur,
      and each bucket holds the entries of its direction's rows, each once
      and in query order. */
  lemma {:induction false} GroupedIsBuckets(rows: seq<RouteRow>)
    ensures forall direction :: direction in Grouped(rows) <==> BucketOf(rows, direction) != []
    ensures forall direction | direction in Grouped(rows) :: Grouped(rows)[direction] == BucketOf(rows, direction)
    decreases |rows|
  {
    if rows != [] {
      GroupedIsBuckets(rows[..|rows| - 1]);
    }
  }

  /** Every row's entry is in the bucket named by its direction. */
  lemma RowLandsInItsBucket(rows: seq<RouteRow>, i: int)
    requires 0 <= i < |rows|
    ensures DirectionOf(rows[i]) in Grouped(rows)
    ensures Entry(rows[i]) in Grouped(rows)[DirectionOf(rows[i])]
  {
    GroupedIsBuckets(rows);
    EntryInBucket(rows, i);
  }

  lemma {:induction false} EntryInBucket(rows: seq<RouteRow>, i: int)
    requires 0 <= i < |rows|
    ensures Entry(rows[i]) in BucketOf(rows, DirectionOf(rows[i]))
    decreases |rows|
  {
    var init := rows[..|rows| - 1];
    if i < |rows| - 1 {
      EntryInBucket(init, i);
      assert init[i] == rows[i];
    }
  }

  /** The directions of the rows, each once, in order of first appearance. */
  function Directions(rows: seq<RouteRow>): (ds: seq<string>)
    ensures forall i, j | 0 <= i < j < |ds| :: ds[i] != ds[j]
    ensures forall d :: d in ds <==> exists i :: 0 <= i < |rows| && DirectionOf(rows[i]) == d
    decreases |rows|
  {
    if rows == [] then []
    else
      var init := rows[..|rows| - 1];
      var prev := Directions(init);
      var d := DirectionOf(rows[|rows| - 1]);
      assert forall i | 0 <= i < |init| :: init[i] == rows[i];
      if d in prev then prev else prev + [d]
  }

  /** The number of entries in the buckets named by `ds`. */
  function EntryCount(analysis: Analysis, ds: seq<string>): nat
    decreases |ds|
  {
    if ds == [] then 0
    else
      var d := ds[|ds| - 1];
      EntryCount(analysis, ds[..|ds| - 1]) + if d in analysis then |analysis[d]| else 0
  }

  /** The sizes of the buckets `BucketOf` gives for the directions `ds`. */
  function BucketSizes(rows: seq<RouteRow>, ds: seq<string>): nat
    decreases |ds|
  {
    if ds == [] then 0 else BucketSizes(rows, ds[..|ds| - 1]) + |BucketOf(rows, ds[|ds| - 1])|
  }

  /** One more row adds one to the bucket sizes of any list of distinct
      directions that holds its direction, and nothing otherwise. */
  lemma {:induction false} BucketSizesSnoc(rows: seq<RouteRow>, row: RouteRow, ds: seq<string>)
    requires forall i, j | 0 <= i < j < |ds| :: ds[i] != ds[j]
    ensures BucketSizes(rows + [row], ds) == BucketSizes(rows, ds) + if DirectionOf(row) in ds then 1 else 0
    decreases |ds|
  {
    if ds != [] {
      var init := ds[..|ds| - 1];
      BucketSizesSnoc(rows, row, init);
      assert (rows + [row])[..|rows + [row]| - 1] == rows;
      assert DirectionOf(row) in ds <==> DirectionOf(row) in init || DirectionOf(row) == ds[|ds| - 1];
      assert ds[|ds| - 1] !in init;
    }
  }

  /** A direction that does not occur has an empty bucket. */
  lemma AbsentDirectionHasNoEntries(rows: seq<RouteRow>, direction: string)
    requires direction !in Directions(rows)
    ensures BucketOf(rows, direction) == []
  {
    BucketOfEmpty(rows, direction);
  }

  /** Every row is counted once over the buckets of all directions. */
  lemma {:induction false} BucketSizesCoverRows(rows: seq<RouteRow>)
    ensures BucketSizes(rows, Directions(rows)) == |rows|
    decreases |rows|
  {
    if rows != [] {
      var init, row := rows[..|rows| - 1], rows[|rows| - 1];
      assert rows == init + [row];
      BucketSizesCoverRows(init);
      var ds := Directions(init);
      BucketSizesSnoc(init, row, Directions(rows));
      if DirectionOf(row) in ds {
        assert Directions(rows) == ds;
      } else {
        assert Directions(rows) == ds + [DirectionOf(row)];
        assert (ds + [DirectionOf(row)])[..|ds|] == ds;
        BucketSizesSnoc(init, row, ds);
        AbsentDirectionHasNoEntries(init, DirectionOf(row));
      }
    }
  }

  /** Counting entries through the buckets of `Grouped` gives the bucket
      sizes of `BucketOf`. */
  lemma {:induction false} EntryCountIsBucketSizes(rows: seq<RouteRow>, ds: seq<string>)
    ensures EntryCount(Grouped(rows), ds) == BucketSizes(rows, ds)
    decreases |ds|
  {
    if ds != [] {
      EntryCountIsBucketSizes(rows, ds[..|ds| - 1]);
      GroupedIsBuckets(rows);
    }
  }

  /** Every query row appears exactly once across the buckets: the buckets
      are those of the directions that occur, and their sizes add up to the
      number of rows. */
  lemma GroupedHasEveryRowOnce(rows: seq<RouteRow>)
    ensures forall d :: d in Grouped(rows) <==> d in Directions(rows)
    ensures EntryCount(Grouped(rows), Directions(rows)) == |rows|
  {
    GroupedIsBuckets(rows);
    forall d
      ensures d in Grouped(rows) <==> d in Directions(rows)
    {
      BucketOfEmpty(rows, d);
    }
    EntryCountIsBucketSizes(rows, Directions(rows));
    BucketSizesCoverRows(rows);
  }

  /** The reduce of `getRouteDelayAnalysis`, with the accumulator a
      dictionary that holds only the buckets it creates. */
  method GroupByDirection(rows: seq<RouteRow>) returns (analysis: Analysis)
    ensures analysis == Grouped(rows)
  {
    var acc: Analysis := map[];
    for i := 0 to |rows|
      invariant acc == Grouped(rows[..i])
    {
      var direction := DirectionOf(rows[i]);
      if direction !in acc {
        acc := acc[direction := []];
      }
      acc := acc[direction := acc[direction] + [Entry(rows[i])]];
      assert rows[..i + 1][..i] == rows[..i];
    }
    assert rows[..|rows|] == rows;
    return acc;
  }

  /** The names a plain object `{}` already answers through its prototype,
      each with a truthy value (a function, or the prototype itself for
      `__proto__`). */
  const InheritedNames: set<string> := {
    "constructor", "__proto__", "hasOwnProperty", "isPrototypeOf", "propertyIsEnumerable",
    "toLocaleString", "toString", "valueOf",
    "__defineGetter__", "__defineSetter__", "__lookupGetter__", "__lookupSetter__"}

  /** The reduce as written, over a plain object: `acc[direction]` also
      finds inherited properties, so for an inherited name the bucket is
      never created and `.push` on the inherited value throws a TypeError,
      which ends the whole analysis. */
  function GroupedAsWritten(rows: seq<RouteRow>): (r: Result<Analysis, string>)
    decreases |rows|
  {
    if rows == [] then Ok(map[])
    else
      match GroupedAsWritten(rows[..|rows| - 1])
      case Err(e) => Err(e)
      case Ok(prev) =>
        var direction := DirectionOf(rows[|rows| - 1]);
        if direction !in prev && direction in InheritedNames then Err("TypeError: acc[direction].push is not a function")
        else
          var bucket := if direction in prev then prev[direction] else [];
          Ok(prev[direction := bucket + [Entry(rows[|rows| - 1])]])
  }

  /** A successful reduce as written never holds an inherited name as a key. */
  lemma {:induction false} AsWrittenKeysNotInherited(rows: seq<RouteRow>)
    ensures GroupedAsWritten(rows).Ok? ==> forall d | d in GroupedAsWritten(rows).value :: d !in InheritedNames
    decreases |rows|
  {
    if rows != [] {
      AsWrittenKeysNotInherited(rows[..|rows| - 1]);
    }
  }

  /** The reduce as written throws exactly when some row's direction is an
      inherited name: such a name never became a bucket of its own, so the
      first row carrying one reaches `.push` on the inherited value. */
  lemma {:induction false} AsWrittenThrowsIffInherited(rows: seq<RouteRow>)
    ensures GroupedAsWritten(rows).Err? <==> exists i | 0 <= i < |rows| :: DirectionOf(rows[i]) in InheritedNames
    decreases |rows|
  {
    if rows != [] {
      var init := rows[..|rows| - 1];
      var last := rows[|rows| - 1];
      AsWrittenThrowsIffInherited(init);
      AsWrittenKeysNotInherited(init);
      assert forall i | 0 <= i < |init| :: init[i] == rows[i];
      if GroupedAsWritten(init).Ok? && DirectionOf(last) in InheritedNames {
        assert DirectionOf(rows[|rows| - 1]) in InheritedNames;
      }
      if exists i | 0 <= i < |rows| :: DirectionOf(rows[i]) in InheritedNames {
        var i :| 0 <= i < |rows| && DirectionOf(rows[i]) in InheritedNames;
        if i < |init| {
          assert DirectionOf(init[i]) in InheritedNames;
        }
      }
    }
  }

  /** A single row whose flag is 'valueOf' (short enough for the
      `VARCHAR(10)` column) makes the analysis as written throw, where the
      grouping gives it a bucket of its own. */
  lemma InheritedFlagThrows()
    ensures var rows := [RouteRow(Some("valueOf"), "1", "740000001", "Centralstationen", "1.5", "4", "1", "25.0")];
      GroupedAsWritten(rows).Err? && Grouped(rows) == map["valueOf" := [Entry(rows[0])]]
  {
    var rows := [RouteRow(Some("valueOf"), "1", "740000001", "Centralstationen", "1.5", "4", "1", "25.0")];
    assert rows[..|rows| - 1] == [];
    assert DirectionOf(rows[0]) == "valueOf" && "valueOf" in InheritedNames;
    assert GroupedAsWritten(rows[..|rows| - 1]) == Ok(map[]);
    assert GroupedAsWritten(rows).Err?;
    assert Grouped(rows[..|rows| - 1]) == map[];
    assert [] + [Entry(rows[0])] == [Entry(rows[0])];
  }

  /** Apart from inherited names the two agree: when no row's direction is
      one, the reduce as written gives the grouping. */
  lemma {:induction false} AsWrittenAgreesElsewhere(rows: seq<RouteRow>)
    requires forall i | 0 <= i < |rows| :: DirectionOf(rows[i]) !in InheritedNames
    ensures GroupedAsWritten(rows) == Ok(Grouped(rows))
    decreases |rows|
  {
    if rows != [] {
      var init := rows[..|rows| - 1];
      assert forall i | 0 <= i < |init| :: init[i] == rows[i];
      AsWrittenAgreesElsewhere(init);
    }
  }
}
