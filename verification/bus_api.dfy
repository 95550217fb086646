/**
 * The fixture-backed bus queries: route search, live locations, the route list and
 * route details, and the passenger update of the per-route subscription. Each query
 * is a function of the catalog it reads; the injected network delay is not modelled.
 */
module BusApi {
  import opened Wrappers
  import opened Seqs
  import opened Text
  import opened Fixtures

  // ---- Result shapes ----

  /** The route fields a search result repeats. */
  datatype RouteSummary = RouteSummary(
    id: string,
    routeNumber: string,
    routeName: string,
    startLocation: string,
    endLocation: string,
    estimatedDuration: int)

  /** A bus's position as a search result shows it; an absent arrival time stands for `''`. */
  datatype LiveFix = LiveFix(
    latitude: real,
    longitude: real,
    speed: real,
    status: Status,
    estimatedArrival: Option<int>,
    nextStop: string,
    lastUpdated: int)

  datatype TrackedBus = TrackedBus(
    id: string,
    busNumber: string,
    currentPassengers: int,
    capacity: int,
    location: Option<LiveFix>)

  datatype TrackingResult = TrackingResult(route: RouteSummary, buses: seq<TrackedBus>)

  // ---- Lookups, as the closures passed to find/filter ----

  function WithRouteId(id: string): Route -> bool { (r: Route) => r.id == id }
  function WithStopId(id: string): BusStop -> bool { (s: BusStop) => s.id == id }
  function WithBusId(id: string): Bus -> bool { (b: Bus) => b.id == id }
  function OnRoute(routeId: string): Bus -> bool { (b: Bus) => b.routeId == routeId }
  function OfBus(busId: string): BusLocation -> bool { (l: BusLocation) => l.busId == busId }

  // ---- searchBuses ----

  /** A route matches when one of its four text fields contains the query, ignoring ASCII case. */
  predicate Matches(r: Route, query: string) {
    var q := Lower(query);
    Includes(Lower(r.routeNumber), q) || Includes(Lower(r.routeName), q)
    || Includes(Lower(r.startLocation), q) || Includes(Lower(r.endLocation), q)
  }

  function MatchesQuery(query: string): Route -> bool { (r: Route) => Matches(r, query) }

  function Summarize(r: Route): RouteSummary {
    RouteSummary(r.id, r.routeNumber, r.routeName, r.startLocation, r.endLocation, r.estimatedDuration)
  }

  /** The name of a location's next stop: the first stop with that id, or "Unknown". */
  function NextStopName(c: Catalog, l: BusLocation): (name: string)
    ensures name != "Unknown" ==>
      exists k :: 0 <= k < |c.stops| && Some(c.stops[k].id) == l.nextStopId && c.stops[k].stopName == name
    ensures (forall k :: 0 <= k < |c.stops| ==> Some(c.stops[k].id) != l.nextStopId) ==> name == "Unknown"
    ensures l.nextStopId.None? || l.nextStopId == Some("") ==> name == "Unknown"
  {
    var stop := if l.nextStopId.Some? && l.nextStopId.value != ""
                then Find(c.stops, WithStopId(l.nextStopId.value)) else None;
    if stop.Some? && stop.value.stopName != "" then stop.value.stopName else "Unknown"
  }

  /** The next stop is the name of the first stop carrying the location's next-stop id, when that name is not empty. */
  lemma NextStopIsFirstMatch(c: Catalog, l: BusLocation, k: int)
    requires 0 <= k < |c.stops| && l.nextStopId == Some(c.stops[k].id) && c.stops[k].id != ""
    requires forall j :: 0 <= j < k ==> c.stops[j].id != c.stops[k].id
    ensures NextStopName(c, l) == if c.stops[k].stopName != "" then c.stops[k].stopName else "Unknown"
  {
    FindFirst(c.stops, WithStopId(c.stops[k].id), k);
  }

  function Fix(c: Catalog, l: BusLocation): LiveFix {
    LiveFix(l.latitude, l.longitude, l.speed, l.status, l.estimatedArrival, NextStopName(c, l), l.recordedAt)
  }

  /** A bus as a search result shows it, with its first location record when it has one. */
  function TrackBus(c: Catalog, b: Bus): (t: TrackedBus)
    ensures t.id == b.id && t.busNumber == b.busNumber
    ensures t.currentPassengers == b.currentPassengers && t.capacity == b.capacity
    ensures t.location.None? <==> forall k :: 0 <= k < |c.locations| ==> c.locations[k].busId != b.id
    ensures t.location.Some? ==> exists k :: (
      && 0 <= k < |c.locations| && c.locations[k].busId == b.id
      && (forall j :: 0 <= j < k ==> c.locations[j].busId != b.id)
      && t.location.value == Fix(c, c.locations[k]))
  {
    var loc := Find(c.locations, OfBus(b.id));
    if loc.Some? then
      ghost var k :| 0 <= k < |c.locations| && c.locations[k] == loc.value;
      FirstLocation(c, b.id, loc.value);
      TrackedBus(b.id, b.busNumber, b.currentPassengers, b.capacity, Some(Fix(c, loc.value)))
    else
      TrackedBus(b.id, b.busNumber, b.currentPassengers, b.capacity, None)
  }

  /** The location `find` picks for a bus is the first record with that bus id. */
  lemma {:induction false} FirstLocation(c: Catalog, busId: string, l: BusLocation)
    requires Find(c.locations, OfBus(busId)) == Some(l)
    ensures exists k :: (
      && 0 <= k < |c.locations| && c.locations[k] == l && l.busId == busId
      && forall j :: 0 <= j < k ==> c.locations[j].busId != busId)
  {
    FindIsFirst(c.locations, OfBus(busId));
  }

  function Tracker(c: Catalog): Bus -> TrackedBus { (b: Bus) => TrackBus(c, b) }

  /** The search result for one route: its summary and its buses, in catalog order. */
  function ResultFor(c: Catalog, r: Route): (res: TrackingResult)
    ensures res.route == Summarize(r)
    ensures forall j :: 0 <= j < |res.buses| ==>
      exists k :: 0 <= k < |c.buses| && c.buses[k].routeId == r.id && res.buses[j] == TrackBus(c, c.buses[k])
    ensures forall k :: 0 <= k < |c.buses| && c.buses[k].routeId == r.id ==>
      TrackBus(c, c.buses[k]) in res.buses
  {
    var onRoute := Filter(c.buses, OnRoute(r.id));
    var buses := Map(onRoute, Tracker(c));
    assert forall j :: 0 <= j < |buses| ==> onRoute[j] in c.buses && buses[j] == TrackBus(c, onRoute[j]);
    assert forall k :: 0 <= k < |c.buses| && c.buses[k].routeId == r.id ==>
      exists j :: 0 <= j < |onRoute| && onRoute[j] == c.buses[k];
    TrackingResult(Summarize(r), buses)
  }

  function Resulter(c: Catalog): Route -> TrackingResult { (r: Route) => ResultFor(c, r) }

  /** A route's tracked buses follow the bus list: buses `a + b` give those for `a`, then those for `b`. */
  lemma {:induction false} ResultKeepsBusOrder(c: Catalog, a: seq<Bus>, b: seq<Bus>, r: Route)
    requires c.buses == a + b
    ensures ResultFor(c, r).buses == ResultFor(c.(buses := a), r).buses + ResultFor(c.(buses := b), r).buses
  {
    var fa := Filter(a, OnRoute(r.id));
    var fb := Filter(b, OnRoute(r.id));
    FilterAppend(a, b, OnRoute(r.id));
    MapAppend(fa, fb, Tracker(c));
    TrackingReadsLocationsAndStops(c, c.(buses := a), fa);
    TrackingReadsLocationsAndStops(c, c.(buses := b), fb);
    assert ResultFor(c, r).buses == Map(fa + fb, Tracker(c));
    assert ResultFor(c.(buses := a), r).buses == Map(fa, Tracker(c.(buses := a)));
    assert ResultFor(c.(buses := b), r).buses == Map(fb, Tracker(c.(buses := b)));
  }

  /** Tracking a bus reads only the location records and the stops of the catalog. */
  lemma TrackingReadsLocationsAndStops(c: Catalog, d: Catalog, s: seq<Bus>)
    requires c.locations == d.locations && c.stops == d.stops
    ensures Map(s, Tracker(c)) == Map(s, Tracker(d))
  {
    forall i | 0 <= i < |s| ensures Tracker(c)(s[i]) == Tracker(d)(s[i]) {
      assert TrackBus(c, s[i]) == TrackBus(d, s[i]);
    }
    MapAgree(s, Tracker(c), Tracker(d));
  }

  /** A single bus is tracked once when it runs on the route, and not at all otherwise. */
  lemma {:induction false} ResultForOneBus(c: Catalog, b: Bus, r: Route)
    requires c.buses == [b]
    ensures ResultFor(c, r).buses == if b.routeId == r.id then [TrackBus(c, b)] else []
  {
    assert [b][1..] == [];
    assert Filter(c.buses, OnRoute(r.id)) == if b.routeId == r.id then [b] else [];
  }

  /** A catalog without buses tracks none on any route. */
  lemma ResultForNoBuses(c: Catalog, r: Route)
    requires c.buses == []
    ensures ResultFor(c, r).buses == []
  {
  }

  /**
   * `busAPI.searchBuses`: the matching routes in catalog order, each with its buses.
   * The coordinates are accepted and not used.
   */
  function SearchBuses(c: Catalog, query: string, latitude: Option<real>, longitude: Option<real>): (res: seq<TrackingResult>)
    ensures |res| <= |c.routes|
  {
    Map(Filter(c.routes, MatchesQuery(query)), Resulter(c))
  }

  /** Every search result is the result for a catalog route that matches the query. */
  lemma SearchFindsOnlyMatches(c: Catalog, query: string, latitude: Option<real>, longitude: Option<real>)
    ensures forall i :: 0 <= i < |SearchBuses(c, query, latitude, longitude)| ==>
      exists k :: 0 <= k < |c.routes| && Matches(c.routes[k], query)
        && SearchBuses(c, query, latitude, longitude)[i] == ResultFor(c, c.routes[k])
  {
    var hits := Filter(c.routes, MatchesQuery(query));
    var res := SearchBuses(c, query, latitude, longitude);
    forall i | 0 <= i < |res|
      ensures exists k :: 0 <= k < |c.routes| && Matches(c.routes[k], query) && res[i] == ResultFor(c, c.routes[k])
    {
      assert hits[i] in c.routes && MatchesQuery(query)(hits[i]);
      var k :| 0 <= k < |c.routes| && c.routes[k] == hits[i];
      assert res[i] == ResultFor(c, c.routes[k]);
    }
  }

  /** Every catalog route that matches the query has its result among the search results. */
  lemma SearchFindsAllMatches(c: Catalog, query: string, latitude: Option<real>, longitude: Option<real>)
    ensures forall k :: 0 <= k < |c.routes| && Matches(c.routes[k], query) ==>
      ResultFor(c, c.routes[k]) in SearchBuses(c, query, latitude, longitude)
  {
    var hits := Filter(c.routes, MatchesQuery(query));
    var res := SearchBuses(c, query, latitude, longitude);
    assert res == Map(hits, Resulter(c));
    forall k | 0 <= k < |c.routes| && Matches(c.routes[k], query)
      ensures ResultFor(c, c.routes[k]) in res
    {
      assert MatchesQuery(query)(c.routes[k]);
      assert c.routes[k] in hits;
      var i :| 0 <= i < |hits| && hits[i] == c.routes[k];
      assert res[i] == ResultFor(c, c.routes[k]);
    }
  }

  /** The coordinates passed to the search never change its result. */
  lemma SearchIgnoresCoordinates(c: Catalog, query: string, latitude: Option<real>, longitude: Option<real>)
    ensures SearchBuses(c, query, latitude, longitude) == SearchBuses(c, query, None, None)
  {
  }

  /** The empty query matches every route, so the search returns one result per route, in order. */
  lemma EmptyQueryReturnsAllRoutes(c: Catalog)
    ensures |SearchBuses(c, "", None, None)| == |GetRoutes(c)|
    ensures forall i :: 0 <= i < |GetRoutes(c)| ==>
      SearchBuses(c, "", None, None)[i] == ResultFor(c, GetRoutes(c)[i])
  {
    forall i | 0 <= i < |c.routes| ensures MatchesQuery("")(c.routes[i]) {
      EmptyIncluded(Lower(c.routes[i].routeNumber));
    }
    FilterKeepsAll(c.routes, MatchesQuery(""));
  }

  /** Searching is insensitive to the case of the query. */
  lemma SearchIgnoresQueryCase(c: Catalog, query: string)
    ensures SearchBuses(c, query, None, None) == SearchBuses(c, Lower(query), None, None)
  {
    LowerIdempotent(query);
    FilterAgree(c.routes, MatchesQuery(query), MatchesQuery(Lower(query)));
  }

  /** A route's search result does not depend on the route list it was found in. */
  lemma ResultIgnoresRoutes(c: Catalog, routes: seq<Route>, r: Route)
    ensures ResultFor(c, r) == ResultFor(c.(routes := routes), r)
  {
    var onRoute := Filter(c.buses, OnRoute(r.id));
    TrackingReadsLocationsAndStops(c, c.(routes := routes), onRoute);
    assert ResultFor(c, r).buses == Map(onRoute, Tracker(c));
    assert ResultFor(c.(routes := routes), r).buses == Map(onRoute, Tracker(c.(routes := routes)));
  }

  /** Searching another route list over the same buses, locations and stops builds the same per-route results. */
  lemma SearchOverRoutes(c: Catalog, routes: seq<Route>, query: string)
    ensures SearchBuses(c.(routes := routes), query, None, None) == Map(Filter(routes, MatchesQuery(query)), Resulter(c))
  {
    var hits := Filter(routes, MatchesQuery(query));
    forall i | 0 <= i < |hits| ensures Resulter(c)(hits[i]) == Resulter(c.(routes := routes))(hits[i]) {
      ResultIgnoresRoutes(c, routes, hits[i]);
    }
    MapAgree(hits, Resulter(c), Resulter(c.(routes := routes)));
  }

  /** Searching a catalog whose routes are `a + b` yields the results for `a` followed by those for `b`. */
  lemma SearchKeepsRouteOrder(c: Catalog, a: seq<Route>, b: seq<Route>, query: string)
    requires c.routes == a + b
    ensures SearchBuses(c, query, None, None)
         == SearchBuses(c.(routes := a), query, None, None) + SearchBuses(c.(routes := b), query, None, None)
  {
    var p := MatchesQuery(query);
    FilterAppend(a, b, p);
    MapAppend(Filter(a, p), Filter(b, p), Resulter(c));
    SearchOverRoutes(c, a, query);
    SearchOverRoutes(c, b, query);
  }

  /**
   * In a catalog where every bus has a location record and a load within its capacity,
   * every bus of every search result has a location and such a load.
   */
  lemma SearchBusesLocated(c: Catalog, query: string)
    requires OneLocationPerBus(c) && LoadsWithinCapacity(c)
    ensures forall i, j :: 0 <= i < |SearchBuses(c, query, None, None)| && 0 <= j < |SearchBuses(c, query, None, None)[i].buses| ==>
      (var t := SearchBuses(c, query, None, None)[i].buses[j]; t.location.Some? && 0 <= t.currentPassengers <= t.capacity)
  {
    var hits := Filter(c.routes, MatchesQuery(query));
    var res := SearchBuses(c, query, None, None);
    assert res == Map(hits, Resulter(c));
    forall i, j | 0 <= i < |res| && 0 <= j < |res[i].buses|
      ensures res[i].buses[j].location.Some? && 0 <= res[i].buses[j].currentPassengers <= res[i].buses[j].capacity
    {
      assert res[i] == ResultFor(c, hits[i]);
      ResultBusesLocated(c, hits[i]);
    }
  }

  /** One route's tracked buses all have a location and a load within capacity. */
  lemma ResultBusesLocated(c: Catalog, r: Route)
    requires OneLocationPerBus(c) && LoadsWithinCapacity(c)
    ensures forall j :: 0 <= j < |ResultFor(c, r).buses| ==>
      ResultFor(c, r).buses[j].location.Some? && 0 <= ResultFor(c, r).buses[j].currentPassengers <= ResultFor(c, r).buses[j].capacity
  {
    var onRoute := Filter(c.buses, OnRoute(r.id));
    var buses := Map(onRoute, Tracker(c));
    assert ResultFor(c, r).buses == buses;
    forall j | 0 <= j < |buses|
      ensures buses[j].location.Some? && 0 <= buses[j].currentPassengers <= buses[j].capacity
    {
      assert buses[j] == TrackBus(c, onRoute[j]);
      BusLocated(c, onRoute[j]);
    }
  }

  /** A bus of a catalog that locates every bus, tracked, has a location and its load. */
  lemma BusLocated(c: Catalog, b: Bus)
    requires b in c.buses && OneLocationPerBus(c) && LoadsWithinCapacity(c)
    ensures TrackBus(c, b).location.Some?
    ensures 0 <= TrackBus(c, b).currentPassengers <= TrackBus(c, b).capacity
  {
    var m :| 0 <= m < |c.buses| && c.buses[m] == b;
    assert forall i :: 0 <= i < |c.buses| ==> exists k :: 0 <= k < |c.locations| && c.locations[k].busId == c.buses[i].id;
    assert exists n :: 0 <= n < |c.locations| && c.locations[n].busId == b.id;
    var n :| 0 <= n < |c.locations| && c.locations[n].busId == b.id;
    assert !(forall k :: 0 <= k < |c.locations| ==> c.locations[k].busId != b.id);
  }

  /** Over the seed catalog no searched bus lacks a location, and every load is within capacity. */
  lemma SeedSearchBusesLocated(loadedAt: int, query: string)
    ensures forall i, j :: 0 <= i < |SearchBuses(Seed(loadedAt), query, None, None)| && 0 <= j < |SearchBuses(Seed(loadedAt), query, None, None)[i].buses| ==>
      (var t := SearchBuses(Seed(loadedAt), query, None, None)[i].buses[j]; t.location.Some? && 0 <= t.currentPassengers <= t.capacity)
  {
    SeedOneLocationPerBus(loadedAt);
    SeedLoadsWithinCapacity(loadedAt);
    SearchBusesLocated(Seed(loadedAt), query);
  }

  /** Over the seed catalog every live entry has its bus and that bus's route. */
  lemma SeedLiveLocationsResolve(loadedAt: int)
    ensures forall i :: 0 <= i < |GetLiveLocations(Seed(loadedAt))| ==>
      GetLiveLocations(Seed(loadedAt))[i].bus.Some? && GetLiveLocations(Seed(loadedAt))[i].bus.value.route.Some?
  {
    SeedBusRoutesResolve(loadedAt);
    SeedLocationBusesResolve(loadedAt);
    SeedNextStopsResolve(loadedAt);
    LiveLocationsResolve(Seed(loadedAt));
  }

  // ---- getLiveLocations ----

  datatype RouteLabel = RouteLabel(routeNumber: string, routeName: string)
  datatype LiveBus = LiveBus(bus: Bus, route: Option<RouteLabel>)

  /** A location record joined with its bus, that bus's route and its next stop. */
  datatype LiveEntry = LiveEntry(location: BusLocation, bus: Option<LiveBus>, nextStop: Option<BusStop>)

  /** The label of the first route with the id, if any. */
  function RouteLabelFor(c: Catalog, routeId: string): (r: Option<RouteLabel>)
    ensures r.None? <==> forall k :: 0 <= k < |c.routes| ==> c.routes[k].id != routeId
    ensures r.Some? ==> exists k :: (
      && 0 <= k < |c.routes| && c.routes[k].id == routeId
      && (forall j :: 0 <= j < k ==> c.routes[j].id != routeId)
      && r.value == RouteLabel(c.routes[k].routeNumber, c.routes[k].routeName))
  {
    var route := Find(c.routes, WithRouteId(routeId));
    FindFirstIfAny(c.routes, WithRouteId(routeId));
    if route.Some? then Some(RouteLabel(route.value.routeNumber, route.value.routeName)) else None
  }

  /** The first bus with the id, if any, with its route's label. */
  function LiveBusFor(c: Catalog, busId: string): (b: Option<LiveBus>)
    ensures b.None? <==> forall k :: 0 <= k < |c.buses| ==> c.buses[k].id != busId
    ensures b.Some? ==> exists k :: (
      && 0 <= k < |c.buses| && c.buses[k] == b.value.bus && c.buses[k].id == busId
      && forall j :: 0 <= j < k ==> c.buses[j].id != busId)
    ensures b.Some? ==> b.value.route == RouteLabelFor(c, b.value.bus.routeId)
  {
    var bus := Find(c.buses, WithBusId(busId));
    FindFirstIfAny(c.buses, WithBusId(busId));
    if bus.Some? then Some(LiveBus(bus.value, RouteLabelFor(c, bus.value.routeId))) else None
  }

  /** The first stop with the next-stop id; none for a missing or empty id. */
  function NextStopFor(c: Catalog, nextStopId: Option<string>): (s: Option<BusStop>)
    ensures nextStopId.None? || nextStopId == Some("") ==> s.None?
    ensures nextStopId.Some? && nextStopId.value != "" ==>
      (s.None? <==> forall k :: 0 <= k < |c.stops| ==> c.stops[k].id != nextStopId.value)
    ensures s.Some? ==> exists k :: (
      && 0 <= k < |c.stops| && c.stops[k] == s.value && Some(c.stops[k].id) == nextStopId
      && forall j :: 0 <= j < k ==> Some(c.stops[j].id) != nextStopId)
  {
    if nextStopId.None? || nextStopId.value == "" then None
    else
      FindFirstIfAny(c.stops, WithStopId(nextStopId.value));
      Find(c.stops, WithStopId(nextStopId.value))
  }

  function LiveEntryFor(c: Catalog, l: BusLocation): (e: LiveEntry)
    ensures e.location == l
    ensures e.bus.None? <==> forall k :: 0 <= k < |c.buses| ==> c.buses[k].id != l.busId
    ensures e.bus.Some? ==> exists k :: (
      && 0 <= k < |c.buses| && c.buses[k] == e.bus.value.bus && c.buses[k].id == l.busId
      && forall j :: 0 <= j < k ==> c.buses[j].id != l.busId)
    ensures e.bus.Some? ==> (e.bus.value.route.None? <==>
      forall k :: 0 <= k < |c.routes| ==> c.routes[k].id != e.bus.value.bus.routeId)
    ensures e.bus.Some? && e.bus.value.route.Some? ==> exists k :: (
      && 0 <= k < |c.routes| && c.routes[k].id == e.bus.value.bus.routeId
      && (forall j :: 0 <= j < k ==> c.routes[j].id != e.bus.value.bus.routeId)
      && e.bus.value.route.value == RouteLabel(c.routes[k].routeNumber, c.routes[k].routeName))
    ensures e.nextStop.Some? ==> exists k :: (
      && 0 <= k < |c.stops| && c.stops[k] == e.nextStop.value && Some(c.stops[k].id) == l.nextStopId
      && forall j :: 0 <= j < k ==> Some(c.stops[j].id) != l.nextStopId)
    ensures l.nextStopId.None? || l.nextStopId == Some("") ==> e.nextStop.None?
    ensures l.nextStopId.Some? && l.nextStopId.value != "" ==>
      (e.nextStop.None? <==> forall k :: 0 <= k < |c.stops| ==> c.stops[k].id != l.nextStopId.value)
  {
    LiveEntry(l, LiveBusFor(c, l.busId), NextStopFor(c, l.nextStopId))
  }

  function LiveEntryMaker(c: Catalog): BusLocation -> LiveEntry { (l: BusLocation) => LiveEntryFor(c, l) }

  /** `busAPI.getLiveLocations`: one entry per location record, in the same order. */
  function GetLiveLocations(c: Catalog): (r: seq<LiveEntry>)
    ensures |r| == |c.locations|
    ensures forall i :: 0 <= i < |r| ==> r[i] == LiveEntryFor(c, c.locations[i]) && r[i].location == c.locations[i]
  {
    Map(c.locations, LiveEntryMaker(c))
  }

  /** In a catalog whose references all resolve, every live entry has its bus, route and (when named) next stop. */
  lemma LiveLocationsResolve(c: Catalog)
    requires BusRoutesResolve(c) && LocationBusesResolve(c) && NextStopsResolve(c)
    ensures forall i :: 0 <= i < |GetLiveLocations(c)| ==>
      var e := GetLiveLocations(c)[i];
      && e.bus.Some? && e.bus.value.route.Some?
      && (c.locations[i].nextStopId.Some? && c.locations[i].nextStopId.value != "" ==> e.nextStop.Some?)
  {
    var r := GetLiveLocations(c);
    forall i | 0 <= i < |r|
      ensures r[i].bus.Some? && r[i].bus.value.route.Some?
      ensures c.locations[i].nextStopId.Some? && c.locations[i].nextStopId.value != "" ==> r[i].nextStop.Some?
    {
      assert r[i] == LiveEntryFor(c, c.locations[i]);
      var k :| 0 <= k < |c.buses| && c.buses[k].id == c.locations[i].busId;
      var b := r[i].bus.value.bus;
      var m :| 0 <= m < |c.buses| && c.buses[m] == b;
      var n :| 0 <= n < |c.routes| && c.routes[n].id == c.buses[m].routeId;
    }
  }

  // ---- getRoutes ----

  /** `busAPI.getRoutes`: the whole route list. */
  function GetRoutes(c: Catalog): seq<Route> {
    c.routes
  }

  // ---- getRouteDetails ----

  datatype RouteStop = RouteStop(stopSequence: int, estimatedTravelTime: int, busStop: BusStop)
  datatype RouteDetails = RouteDetails(route: Route, routeStops: seq<RouteStop>)

  /** Stops numbered from position `from`: sequence `from + 1` and travel time `from * 10` onwards. */
  function Numbered(stops: seq<BusStop>, from: nat): (r: seq<RouteStop>)
    ensures |r| == |stops|
    ensures forall i :: 0 <= i < |r| ==> r[i] == RouteStop(from + i + 1, (from + i) * 10, stops[i])
  {
    if stops == [] then [] else [RouteStop(from + 1, from * 10, stops[0])] + Numbered(stops[1..], from + 1)
  }

  /**
   * `busAPI.getRouteDetails`: the first route with the id, followed by the first five
   * stops of the whole stop list (not the route's own stops), numbered from 1 and
   * ten minutes apart; "Route not found" when no route has the id.
   */
  function GetRouteDetails(c: Catalog, routeId: string): (r: Result<RouteDetails>)
    ensures r.Err? <==> forall k :: 0 <= k < |c.routes| ==> c.routes[k].id != routeId
    ensures r.Err? ==> r.message == "Route not found"
    ensures r.Ok? ==> exists k :: (
      && 0 <= k < |c.routes| && c.routes[k] == r.value.route && c.routes[k].id == routeId
      && forall j :: 0 <= j < k ==> c.routes[j].id != routeId)
    ensures r.Ok? ==> |r.value.routeStops| == (if |c.stops| < 5 then |c.stops| else 5)
    ensures r.Ok? ==> forall i :: 0 <= i < |r.value.routeStops| ==>
      r.value.routeStops[i] == RouteStop(i + 1, i * 10, c.stops[i])
  {
    FindFirstIfAny(c.routes, WithRouteId(routeId));
    match Find(c.routes, WithRouteId(routeId))
    case None => Err("Route not found")
    case Some(route) => Ok(RouteDetails(route, Numbered(Take(c.stops, 5), 0)))
  }

  // ---- subscribeToRoute ----

  /**
   * The passenger count a route tick reports for a bus, after adding the (random)
   * change `delta`: clamped to between 0 and the capacity.
   */
  function TickPassengers(b: Bus, delta: int): (p: int)
    ensures p >= 0
    ensures b.capacity >= 0 ==> p <= b.capacity
    ensures 0 <= b.currentPassengers + delta <= b.capacity ==> p == b.currentPassengers + delta
    ensures b.currentPassengers + delta < 0 ==> p == 0
    ensures 0 <= b.capacity < b.currentPassengers + delta ==> p == b.capacity
    ensures b.capacity < 0 ==> p == 0
  {
    var m := if b.capacity < b.currentPassengers + delta then b.capacity else b.currentPassengers + delta;
    if m < 0 then 0 else m
  }
}
