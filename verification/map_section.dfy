/**
 * The logic of the map screen: the flat list of bus rows derived from the search results,
 * the status colour classes, the passenger and arrival-time summaries, and the selected-bus
 * toggle of the side panel.
 */
module MapSection {
  import opened Wrappers
  import opened Seqs
  import opened Fixtures
  import opened BusApi

  /** One row of the side panel. `status` is the location's status name, or "unknown". */
  datatype BusRow = BusRow(id: string, route: string, nextStop: string, eta: int, passengers: int, status: string)

  // ---- rows ----

  /**
   * `Math.ceil((arrival - now) / 60000)`: whole minutes until the arrival time, rounded up;
   * 0 when there is no arrival time.
   */
  function EtaMinutes(arrival: Option<int>, now: int): (m: int)
    ensures arrival.None? ==> m == 0
    ensures arrival.Some? ==> (m - 1) * MinuteMs < arrival.value - now <= m * MinuteMs
  {
    if arrival.None? then 0 else -((now - arrival.value) / MinuteMs)
  }

  /** An arrival a whole number of minutes away shows exactly that many minutes. */
  lemma EtaOfWholeMinutes(now: int, minutes: int)
    ensures EtaMinutes(Some(now + minutes * MinuteMs), now) == minutes
  {
    var m := EtaMinutes(Some(now + minutes * MinuteMs), now);
    assert (m - 1) * MinuteMs < minutes * MinuteMs <= m * MinuteMs;
  }

  /** The row for one bus of a search result. */
  function Row(route: RouteSummary, bus: TrackedBus, now: int): (row: BusRow)
    ensures row.id == bus.id && row.route == route.routeNumber && row.passengers == bus.currentPassengers
    ensures row.nextStop != ""
    ensures bus.location.None? ==> row.nextStop == "Unknown" && row.eta == 0 && row.status == "unknown"
    ensures bus.location.Some? ==> row.status == bus.location.value.status.Name()
    ensures bus.location.Some? ==> row.eta == EtaMinutes(bus.location.value.estimatedArrival, now)
    ensures bus.location.Some? && bus.location.value.nextStop != "" ==> row.nextStop == bus.location.value.nextStop
    ensures bus.location.Some? && bus.location.value.nextStop == "" ==> row.nextStop == "Unknown"
  {
    if bus.location.None? then
      BusRow(bus.id, route.routeNumber, "Unknown", 0, bus.currentPassengers, "unknown")
    else
      var fix := bus.location.value;
      var nextStop := if fix.nextStop != "" then fix.nextStop else "Unknown";
      BusRow(bus.id, route.routeNumber, nextStop, EtaMinutes(fix.estimatedArrival, now), bus.currentPassengers, fix.status.Name())
  }

  function RowMaker(route: RouteSummary, now: int): TrackedBus -> BusRow {
    (bus: TrackedBus) => Row(route, bus, now)
  }

  /** The number of buses over all results. */
  function BusCount(results: seq<TrackingResult>): nat {
    if results == [] then 0 else |results[0].buses| + BusCount(results[1..])
  }

  /** `searchResults.flatMap(result => result.buses.map(...))`. */
  function BusData(results: seq<TrackingResult>, now: int): (rows: seq<BusRow>)
    ensures |rows| == BusCount(results)
  {
    if results == [] then [] else Map(results[0].buses, RowMaker(results[0].route, now)) + BusData(results[1..], now)
  }

  /**
   * The rows come in result order, then bus order: bus j of result i sits after the rows
   * of every earlier result.
   */
  lemma {:induction false} BusDataAt(results: seq<TrackingResult>, now: int, i: int, j: int)
    requires 0 <= i < |results| && 0 <= j < |results[i].buses|
    ensures BusCount(results[..i]) + j < |BusData(results, now)|
    ensures BusData(results, now)[BusCount(results[..i]) + j] == Row(results[i].route, results[i].buses[j], now)
    decreases i
  {
    var first := Map(results[0].buses, RowMaker(results[0].route, now));
    assert BusData(results, now) == first + BusData(results[1..], now);
    if i == 0 {
      assert results[..i] == [];
      assert first[j] == Row(results[0].route, results[0].buses[j], now);
    } else {
      assert results[..i][1..] == results[1..][..i - 1];
      assert BusCount(results[..i]) == |first| + BusCount(results[1..][..i - 1]);
      BusDataAt(results[1..], now, i - 1, j);
      assert results[1..][i - 1] == results[i];
    }
  }

  /** Every row is the row of some bus of some result. */
  lemma {:induction false} BusDataRowsFrom(results: seq<TrackingResult>, now: int, k: int)
    requires 0 <= k < |BusData(results, now)|
    ensures exists i, j :: 0 <= i < |results| && 0 <= j < |results[i].buses| && BusData(results, now)[k] == Row(results[i].route, results[i].buses[j], now)
    decreases |results|
  {
    var first := Map(results[0].buses, RowMaker(results[0].route, now));
    if k < |first| {
      assert BusData(results, now)[k] == Row(results[0].route, results[0].buses[k], now);
    } else {
      BusDataRowsFrom(results[1..], now, k - |first|);
      var i, j :| 0 <= i < |results[1..]| && 0 <= j < |results[1..][i].buses| && BusData(results[1..], now)[k - |first|] == Row(results[1..][i].route, results[1..][i].buses[j], now);
      assert results[1..][i] == results[i + 1];
    }
  }

  /** When every listed bus has a location, no row shows the "unknown" status. */
  lemma RowsHaveStatus(results: seq<TrackingResult>, now: int)
    requires forall i, j :: 0 <= i < |results| && 0 <= j < |results[i].buses| ==> results[i].buses[j].location.Some?
    ensures forall k :: 0 <= k < |BusData(results, now)| ==>
      BusData(results, now)[k].status in {"on-time", "delayed", "early", "breakdown"}
  {
    forall k | 0 <= k < |BusData(results, now)|
      ensures BusData(results, now)[k].status in {"on-time", "delayed", "early", "breakdown"}
    {
      BusDataRowsFrom(results, now, k);
    }
  }

  /** Over the seed catalog every row of a search shows a real status. */
  lemma SeedRowsHaveStatus(loadedAt: int, query: string, now: int)
    ensures forall k :: 0 <= k < |BusData(SearchBuses(Seed(loadedAt), query, None, None), now)| ==>
      BusData(SearchBuses(Seed(loadedAt), query, None, None), now)[k].status in {"on-time", "delayed", "early", "breakdown"}
  {
    var results := SearchBuses(Seed(loadedAt), query, None, None);
    SeedSearchBusesLocated(loadedAt, query);
    RowsHaveStatus(results, now);
  }

  // ---- summaries ----

  /** `busData.reduce((total, bus) => total + (bus.passengers || 0), 0)`. */
  function TotalPassengers(rows: seq<BusRow>): int {
    if rows == [] then 0 else rows[0].passengers + TotalPassengers(rows[1..])
  }

  function SumEta(rows: seq<BusRow>): int {
    if rows == [] then 0 else rows[0].eta + SumEta(rows[1..])
  }

  /** The passenger total of a list of rows is the total of its parts. */
  lemma {:induction false} TotalPassengersAppend(a: seq<BusRow>, b: seq<BusRow>)
    ensures TotalPassengers(a + b) == TotalPassengers(a) + TotalPassengers(b)
    decreases |a|
  {
    if a == [] {
      assert a + b == b;
    } else {
      assert (a + b)[0] == a[0];
      assert (a + b)[1..] == a[1..] + b;
      TotalPassengersAppend(a[1..], b);
    }
  }

  /** Rows whose loads are within their buses' capacities total between 0 and the total capacity. */
  lemma {:induction false} TotalPassengersBounded(rows: seq<BusRow>, capacities: seq<int>)
    requires |capacities| == |rows|
    requires forall k :: 0 <= k < |rows| ==> 0 <= rows[k].passengers <= capacities[k]
    ensures 0 <= TotalPassengers(rows) <= Sum(capacities)
    decreases |rows|
  {
    if rows != [] {
      TotalPassengersBounded(rows[1..], capacities[1..]);
    }
  }

  function Sum(xs: seq<int>): int {
    if xs == [] then 0 else xs[0] + Sum(xs[1..])
  }

  /**
   * `Math.round(s / n)` for n > 0: the integer nearest s / n, halves rounded up. Multiplied
   * through by 2n, r - 1/2 <= s / n < r + 1/2 is the bound stated.
   */
  function RoundedQuotient(s: int, n: int): (r: int)
    requires n > 0
    ensures 2 * n * r <= 2 * s + n < 2 * n * (r + 1)
  {
    (2 * s + n) / (2 * n)
  }

  /** The average arrival time in whole minutes, 0 for no rows. */
  function AverageEta(rows: seq<BusRow>): (r: int)
    ensures |rows| == 0 ==> r == 0
    ensures |rows| > 0 ==> 2 * |rows| * r <= 2 * SumEta(rows) + |rows| < 2 * |rows| * (r + 1)
  {
    if |rows| == 0 then 0 else RoundedQuotient(SumEta(rows), |rows|)
  }

  /** Rows that all show the same arrival time average to it. */
  lemma {:induction false} AverageOfEqualEtas(rows: seq<BusRow>, e: int)
    requires |rows| > 0 && forall k :: 0 <= k < |rows| ==> rows[k].eta == e
    ensures AverageEta(rows) == e
  {
    SumOfEqualEtas(rows, e);
    RoundedMultiple(|rows|, e);
  }

  /** n * e shared among n rounds to e. */
  lemma RoundedMultiple(n: int, e: int)
    requires n > 0
    ensures RoundedQuotient(n * e, n) == e
  {
    var d := 2 * n;
    var q := RoundedQuotient(n * e, n);
    assert d * q <= d * e + n < d * (q + 1);
    assert d * (q - e) <= n;
    assert -n < d * (q - e) + n;
    if q - e >= 1 {
      MultiplyAtLeastOnce(d, q - e);
    } else if q - e <= -1 {
      MultiplyAtLeastOnce(d, e - q);
    }
  }

  lemma {:induction false} MultiplyAtLeastOnce(d: int, k: int)
    requires d > 0 && k >= 1
    ensures d * k >= d
    decreases k
  {
    if k > 1 {
      MultiplyAtLeastOnce(d, k - 1);
    }
  }

  lemma {:induction false} SumOfEqualEtas(rows: seq<BusRow>, e: int)
    requires forall k :: 0 <= k < |rows| ==> rows[k].eta == e
    ensures SumEta(rows) == |rows| * e
    decreases |rows|
  {
    if rows != [] {
      SumOfEqualEtas(rows[1..], e);
    }
  }

  // ---- status colours ----

  const Green := "text-green-600 bg-green-100"
  const Red := "text-red-600 bg-red-100"
  const Blue := "text-blue-600 bg-blue-100"
  const Gray := "text-gray-600 bg-gray-100"

  /** The badge classes for a status name: green, red and blue for the three running states, gray for anything else. */
  function StatusColor(status: string): (c: string)
    ensures status == "on-time" ==> c == Green
    ensures status == "delayed" ==> c == Red
    ensures status == "early" ==> c == Blue
    ensures status != "on-time" && status != "delayed" && status != "early" ==> c == Gray
  {
    if status == "on-time" then Green
    else if status == "delayed" then Red
    else if status == "early" then Blue
    else Gray
  }

  /**
   * Of the four location statuses only a breakdown is shown in gray, like a bus without a
   * location; the three others get three different colours.
   */
  lemma StatusColors(st: Status)
    ensures StatusColor(st.Name()) == Gray <==> st == Breakdown
    ensures StatusColor("unknown") == Gray
    ensures Green != Red && Red != Blue && Blue != Green
  {
  }

  // ---- the side panel ----

  /** Clicking the selected bus (by id) deselects it; clicking any other bus selects that one. */
  function Toggled(selected: Option<BusRow>, bus: BusRow): (r: Option<BusRow>)
    ensures r.None? <==> selected.Some? && selected.value.id == bus.id
    ensures r.Some? ==> r.value == bus
  {
    if selected.Some? && selected.value.id == bus.id then None else Some(bus)
  }

  /** Two clicks on the same bus end with it selected exactly when it was selected before. */
  lemma ToggleTwice(selected: Option<BusRow>, bus: BusRow)
    ensures Toggled(Toggled(selected, bus), bus) == if selected.Some? && selected.value.id == bus.id then Some(bus) else None
  {
  }

  /** The side panel's selection. */
  class BusPanel {
    var selectedBus: Option<BusRow>

    constructor ()
      ensures selectedBus == None
    {
      selectedBus := None;
    }

    method Click(bus: BusRow)
      modifies this
      ensures selectedBus == Toggled(old(selectedBus), bus)
    {
      if selectedBus.Some? && selectedBus.value.id == bus.id {
        selectedBus := None;
      } else {
        selectedBus := Some(bus);
      }
    }
  }
}
