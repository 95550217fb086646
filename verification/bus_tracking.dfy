/**
 * The tracking hooks: component state that a search, a live-location refresh, a route
 * lookup, a nearby-stop lookup and a single-bus subscription overwrite. Each awaited service
 * call is a `Fetched` parameter: what the call delivered, or what it threw.
 */
module BusTracking {
  import opened Wrappers
  import opened Fixtures
  import opened BusApi

  /** What a failed call threw: an `Error` with its message, or some other value. */
  datatype Thrown = ErrorObject(message: string) | OtherValue

  /** The outcome of an awaited call: a response whose `data` may be missing, or a throw. */
  datatype Fetched<T> = Delivered(data: Option<T>) | Threw(thrown: Thrown)

  /** The message a catch block records: the error's own message, else the hook's fallback. */
  function ErrorText(thrown: Thrown, fallback: string): string {
    if thrown.ErrorObject? then thrown.message else fallback
  }

  /** A service result as the awaiting hook sees it: data on success, an `Error` throw otherwise. */
  function Settled<T>(r: Result<T>): (f: Fetched<T>)
    ensures f.Delivered? <==> r.Ok?
    ensures r.Ok? ==> f == Delivered(Some(r.value))
    ensures r.Err? ==> f == Threw(ErrorObject(r.message))
  {
    if r.Ok? then Delivered(Some(r.value)) else Threw(ErrorObject(r.message))
  }

  const SearchFailed := "Failed to search buses"
  const RouteDetailsFailed := "Failed to get route details"
  const NearbyStopsFailed := "Failed to get nearby stops"

  /** `useBusTracking`: search results, live locations, a loading flag and the last search error. */
  class BusTracker {
    var searchResults: seq<TrackingResult>
    var liveLocations: seq<LiveEntry>
    var loading: bool
    var error: Option<string>

    /** A failed search always leaves the results empty. */
    ghost predicate Valid()
      reads this
    {
      error.Some? ==> searchResults == []
    }

    constructor ()
      ensures searchResults == [] && liveLocations == [] && !loading && error == None
      ensures Valid()
    {
      searchResults := [];
      liveLocations := [];
      loading := false;
      error := None;
    }

    /** The synchronous start of a search: loading, with the previous error cleared. */
    method BeginSearch()
      requires Valid()
      modifies this
      ensures loading && error == None
      ensures searchResults == old(searchResults) && liveLocations == old(liveLocations)
      ensures Valid()
    {
      loading := true;
      error := None;
    }

    /**
     * The end of a search once the call settles: the delivered results (none if the response
     * has no data), or an error message with the results cleared; loading ends either way.
     */
    method CompleteSearch(response: Fetched<seq<TrackingResult>>)
      requires loading && error == None
      modifies this
      ensures !loading && liveLocations == old(liveLocations)
      ensures response.Delivered? ==> searchResults == response.data.GetOr([]) && error == None
      ensures response.Threw? ==> searchResults == [] && error == Some(ErrorText(response.thrown, SearchFailed))
      ensures Valid()
    {
      match response {
        case Delivered(data) =>
          searchResults := data.GetOr([]);
        case Threw(thrown) =>
          error := Some(ErrorText(thrown, SearchFailed));
          searchResults := [];
      }
      loading := false;
    }

    /** A whole search against the catalog, whose search call never throws. */
    method SearchBuses(c: Catalog, query: string, latitude: Option<real>, longitude: Option<real>)
      requires Valid()
      modifies this
      ensures searchResults == BusApi.SearchBuses(c, query, latitude, longitude)
      ensures !loading && error == None && liveLocations == old(liveLocations)
      ensures Valid()
    {
      BeginSearch();
      CompleteSearch(Delivered(Some(BusApi.SearchBuses(c, query, latitude, longitude))));
    }

    /** A refresh replaces the live locations when the call succeeds and changes nothing when it throws. */
    method RefreshLiveLocations(response: Fetched<seq<LiveEntry>>)
      requires Valid()
      modifies this
      ensures response.Delivered? ==> liveLocations == response.data.GetOr([])
      ensures response.Threw? ==> liveLocations == old(liveLocations)
      ensures searchResults == old(searchResults) && loading == old(loading) && error == old(error)
      ensures Valid()
    {
      if response.Delivered? {
        liveLocations := response.data.GetOr([]);
      }
    }

    /** A refresh against the catalog: one entry per location record. */
    method RefreshFromCatalog(c: Catalog)
      requires Valid()
      modifies this
      ensures liveLocations == GetLiveLocations(c)
      ensures searchResults == old(searchResults) && loading == old(loading) && error == old(error)
      ensures Valid()
    {
      RefreshLiveLocations(Delivered(Some(GetLiveLocations(c))));
    }
  }

  /** `useRouteDetails`: the details of the selected route. */
  class RouteDetailsView {
    var routeDetails: Option<RouteDetails>
    var loading: bool
    var error: Option<string>

    /** A failed lookup leaves no details. */
    ghost predicate Valid()
      reads this
    {
      error.Some? ==> routeDetails.None?
    }

    constructor ()
      ensures routeDetails == None && !loading && error == None
      ensures Valid()
    {
      routeDetails := None;
      loading := false;
      error := None;
    }

    /**
     * Reacts to a new route id. A missing or empty id clears the details without a call;
     * otherwise `response` is what the lookup settled to.
     */
    method Load(routeId: Option<string>, response: Fetched<RouteDetails>)
      requires Valid()
      modifies this
      ensures routeId.None? || routeId.value == "" ==>
        routeDetails == None && loading == old(loading) && error == old(error)
      ensures routeId.Some? && routeId.value != "" ==> !loading
      ensures routeId.Some? && routeId.value != "" && response.Delivered? ==>
        routeDetails == response.data && error == None
      ensures routeId.Some? && routeId.value != "" && response.Threw? ==>
        routeDetails == None && error == Some(ErrorText(response.thrown, RouteDetailsFailed))
      ensures Valid()
    {
      if routeId.None? || routeId.value == "" {
        routeDetails := None;
        return;
      }
      loading := true;
      error := None;
      match response {
        case Delivered(data) =>
          routeDetails := data;
        case Threw(thrown) =>
          error := Some(ErrorText(thrown, RouteDetailsFailed));
          routeDetails := None;
      }
      loading := false;
    }

    /** A lookup against the catalog: an unknown id ends with "Route not found" and no details. */
    method LoadFromCatalog(c: Catalog, routeId: Option<string>)
      requires Valid()
      modifies this
      ensures routeId.Some? && routeId.value != "" ==> (
        && !loading
        && (routeDetails.None? <==> forall i :: 0 <= i < |c.routes| ==> c.routes[i].id != routeId.value)
        && (routeDetails.None? ==> error == Some("Route not found"))
        && (routeDetails.Some? ==> routeDetails.value.route.id == routeId.value && error == None))
      ensures routeId.Some? && routeId.value != "" && GetRouteDetails(c, routeId.value).Ok? ==>
        routeDetails == Some(GetRouteDetails(c, routeId.value).value)
      ensures routeId.None? || routeId.value == "" ==> routeDetails == None && error == old(error)
      ensures Valid()
    {
      var response: Fetched<RouteDetails> := Delivered(None);
      if routeId.Some? && routeId.value != "" {
        response := Settled(GetRouteDetails(c, routeId.value));
      }
      Load(routeId, response);
    }
  }

  /** A coordinate React treats as absent: missing, or zero (`NaN` is not modelled). */
  predicate Falsy(x: Option<real>) {
    x.None? || x.value == 0.0
  }

  /** `useNearbyStops`: the stops near a position. */
  class NearbyStopsView {
    var nearbyStops: seq<BusStop>
    var loading: bool
    var error: Option<string>

    /** A failed lookup leaves no stops. */
    ghost predicate Valid()
      reads this
    {
      error.Some? ==> nearbyStops == []
    }

    constructor ()
      ensures nearbyStops == [] && !loading && error == None
      ensures Valid()
    {
      nearbyStops := [];
      loading := false;
      error := None;
    }

    /**
     * Reacts to a new position. A falsy latitude or longitude empties the list without a
     * call; otherwise `response` is what the lookup settled to.
     */
    method Load(latitude: Option<real>, longitude: Option<real>, response: Fetched<seq<BusStop>>)
      requires Valid()
      modifies this
      ensures Falsy(latitude) || Falsy(longitude) ==>
        nearbyStops == [] && loading == old(loading) && error == old(error)
      ensures !Falsy(latitude) && !Falsy(longitude) ==> !loading
      ensures !Falsy(latitude) && !Falsy(longitude) && response.Delivered? ==>
        nearbyStops == response.data.GetOr([]) && error == None
      ensures !Falsy(latitude) && !Falsy(longitude) && response.Threw? ==>
        nearbyStops == [] && error == Some(ErrorText(response.thrown, NearbyStopsFailed))
      ensures Valid()
    {
      if Falsy(latitude) || Falsy(longitude) {
        nearbyStops := [];
        return;
      }
      loading := true;
      error := None;
      match response {
        case Delivered(data) =>
          nearbyStops := data.GetOr([]);
        case Threw(thrown) =>
          error := Some(ErrorText(thrown, NearbyStopsFailed));
          nearbyStops := [];
      }
      loading := false;
    }
  }

  /** A change event from the single-bus subscription. */
  datatype BusUpdate = BusUpdate(eventType: string, newRecord: BusLocation, oldRecord: Option<BusLocation>)

  /** `useBusSubscription`: the latest location record pushed for the watched bus. */
  class BusSubscriptionView {
    var busData: Option<BusLocation>
    var watching: Option<string>

    /** A bus is watched only by a non-empty id, and data is held only while one is watched. */
    ghost predicate Valid()
      reads this
    {
      && (watching.Some? ==> watching.value != "")
      && (busData.Some? ==> watching.Some?)
    }

    constructor ()
      ensures busData == None && watching == None
      ensures Valid()
    {
      busData := None;
      watching := None;
    }

    /**
     * Reacts to a new bus id. A missing or empty id clears the data and stops watching;
     * another id starts a subscription and keeps the data until its first update arrives.
     */
    method Watch(busId: Option<string>)
      requires Valid()
      modifies this
      ensures busId.None? || busId.value == "" ==> busData == None && watching == None
      ensures busId.Some? && busId.value != "" ==> busData == old(busData) && watching == busId
      ensures Valid()
    {
      if busId.None? || busId.value == "" {
        busData := None;
        watching := None;
        return;
      }
      watching := busId;
    }

    /** An update for the watched bus replaces the data with the update's new record. */
    method Deliver(update: BusUpdate)
      requires Valid() && watching.Some? && update.newRecord.busId == watching.value
      modifies this
      ensures busData == Some(update.newRecord) && watching == old(watching)
      ensures Valid()
    {
      busData := Some(update.newRecord);
    }
  }
}
