/**
 * The record types of the mock data layer and its six seed lists. Timestamps are
 * milliseconds; the seed locations are stamped relative to `loadedAt`, the moment
 * the data module is loaded.
 */
module Fixtures {
  import opened Wrappers
  import opened Seqs

  datatype Route = Route(
    id: string,
    routeNumber: string,
    routeName: string,
    startLocation: string,
    endLocation: string,
    totalStops: int,
    estimatedDuration: int,
    isActive: bool)

  datatype BusStop = BusStop(
    id: string,
    stopName: string,
    stopCode: string,
    latitude: real,
    longitude: real,
    address: string,
    isActive: bool)

  datatype Bus = Bus(
    id: string,
    busNumber: string,
    routeId: string,
    capacity: int,
    currentPassengers: int,
    isActive: bool)

  /** The four values of a location's `status` union type. */
  datatype Status = OnTime | Delayed | Early | Breakdown {
    /** The string the source stores for this status. */
    function Name(): string {
      match this
      case OnTime => "on-time"
      case Delayed => "delayed"
      case Early => "early"
      case Breakdown => "breakdown"
    }
  }

  datatype BusLocation = BusLocation(
    id: string,
    busId: string,
    latitude: real,
    longitude: real,
    speed: real,
    heading: real,
    nextStopId: Option<string>,
    estimatedArrival: Option<int>,
    status: Status,
    recordedAt: int)

  datatype Driver = Driver(
    id: string,
    employeeId: string,
    fullName: string,
    phoneNumber: Option<string>,
    licenseNumber: Option<string>,
    isVerified: bool,
    isActive: bool)

  datatype Passenger = Passenger(
    id: string,
    fullName: Option<string>,
    phoneNumber: Option<string>,
    preferredLanguage: string,
    email: Option<string>)

  /** The four read-only lists the bus queries read. */
  datatype Catalog = Catalog(
    routes: seq<Route>,
    stops: seq<BusStop>,
    buses: seq<Bus>,
    locations: seq<BusLocation>)

  const MinuteMs := 60 * 1000

  const Routes: seq<Route> := [
    Route("1", "45A", "Secunderabad to Gachibowli", "Secunderabad Railway Station", "Gachibowli DLF", 25, 90, true),
    Route("2", "12B", "KPHB to Ameerpet", "KPHB Colony", "Ameerpet Metro Station", 18, 45, true),
    Route("3", "78C", "Kukatpally to Begumpet", "Kukatpally Housing Board", "Begumpet Airport", 22, 60, true),
    Route("4", "156", "Mehdipatnam to Uppal", "Mehdipatnam Bus Station", "Uppal Depot", 30, 75, true),
    Route("5", "290U", "JBS to Hitec City", "Jubilee Bus Station", "Hitec City", 28, 85, true)
  ]

  /** The ten seed stops, written in two literal halves so that facts about them can be proved half by half. */
  const Stops: seq<BusStop> := StopsOneToFive + StopsSixToTen

  const StopsOneToFive: seq<BusStop> := [
    BusStop("1", "Secunderabad Railway Station", "SEC001", 17.4399, 78.5017, "Secunderabad Railway Station, Hyderabad", true),
    BusStop("2", "Paradise Circle", "PAR002", 17.4326, 78.4926, "Paradise Circle, Secunderabad", true),
    BusStop("3", "Ameerpet Metro", "AME003", 17.4374, 78.4482, "Ameerpet Metro Station, Hyderabad", true),
    BusStop("4", "Punjagutta", "PUN004", 17.4239, 78.4738, "Punjagutta, Hyderabad", true),
    BusStop("5", "Banjara Hills", "BAN005", 17.4126, 78.4071, "Banjara Hills, Hyderabad", true)
  ]

  const StopsSixToTen: seq<BusStop> := [
    BusStop("6", "Jubilee Hills", "JUB006", 17.4239, 78.4004, "Jubilee Hills, Hyderabad", true),
    BusStop("7", "Madhapur", "MAD007", 17.4483, 78.3915, "Madhapur, Hyderabad", true),
    BusStop("8", "Gachibowli DLF", "GAC008", 17.4435, 78.3479, "Gachibowli DLF Cyber City", true),
    BusStop("9", "KPHB Colony", "KPH009", 17.4851, 78.3912, "KPHB Colony, Hyderabad", true),
    BusStop("10", "Kukatpally", "KUK010", 17.4847, 78.4138, "Kukatpally Housing Board", true)
  ]

  const Buses: seq<Bus> := [
    Bus("1", "TS09AB1234", "1", 45, 23, true),
    Bus("2", "TS09CD5678", "2", 40, 18, true),
    Bus("3", "TS09EF9012", "3", 50, 31, true),
    Bus("4", "TS09GH3456", "4", 45, 12, true),
    Bus("5", "TS09IJ7890", "5", 50, 28, true)
  ]

  /**
   * A seed location as written in the data module: its arrival is given as minutes
   * after the moment the module is loaded, and it is recorded at that moment.
   */
  datatype SeedLocation = SeedLocation(
    id: string,
    busId: string,
    latitude: real,
    longitude: real,
    speed: real,
    heading: real,
    nextStopId: Option<string>,
    arrivalInMinutes: int,
    status: Status)
  {
    function At(loadedAt: int): (l: BusLocation)
      ensures l.id == id && l.busId == busId && l.nextStopId == nextStopId && l.status == status
      ensures l.estimatedArrival == Some(loadedAt + arrivalInMinutes * MinuteMs) && l.recordedAt == loadedAt
    {
      BusLocation(id, busId, latitude, longitude, speed, heading, nextStopId,
                  Some(loadedAt + arrivalInMinutes * MinuteMs), status, loadedAt)
    }
  }

  const LocationSeeds: seq<SeedLocation> := [
    SeedLocation("1", "1", 17.4326, 78.4926, 35.5, 180.0, Some("3"), 5, OnTime),
    SeedLocation("2", "2", 17.4851, 78.3912, 28.2, 90.0, Some("10"), 12, Delayed),
    SeedLocation("3", "3", 17.4847, 78.4138, 42.1, 45.0, Some("3"), 3, Early),
    SeedLocation("4", "4", 17.3969, 78.4378, 31.8, 270.0, None, 8, OnTime),
    SeedLocation("5", "5", 17.4504, 78.3808, 25.4, 120.0, None, 6, OnTime)
  ]

  /** The seed locations as stamped when the data module is loaded at `loadedAt`. */
  function Locations(loadedAt: int): seq<BusLocation> {
    Map(LocationSeeds, (l: SeedLocation) => l.At(loadedAt))
  }

  const Drivers: seq<Driver> := [
    Driver("1", "DRV001", "Rajesh Kumar", Some("+91 9876543210"), Some("TS1234567890"), true, true),
    Driver("2", "DRV002", "Suresh Reddy", Some("+91 9876543211"), Some("TS1234567891"), true, true)
  ]

  const Passengers: seq<Passenger> := [
    Passenger("1", Some("John Doe"), Some("+91 9876543212"), "en", Some("john.doe@example.com")),
    Passenger("2", Some("Jane Smith"), Some("+91 9876543213"), "en", Some("jane.smith@example.com"))
  ]

  /** The bus catalog as loaded at time `loadedAt`. */
  function Seed(loadedAt: int): Catalog {
    Catalog(Routes, Stops, Buses, Locations(loadedAt))
  }

  // ---- Invariants of a catalog ----

  predicate RouteIdsDistinct(c: Catalog) {
    forall i, j :: 0 <= i < j < |c.routes| ==> c.routes[i].id != c.routes[j].id
  }

  predicate StopIdsDistinct(c: Catalog) {
    forall i, j :: 0 <= i < j < |c.stops| ==> c.stops[i].id != c.stops[j].id
  }

  predicate StopCodesDistinct(c: Catalog) {
    forall i, j :: 0 <= i < j < |c.stops| ==> c.stops[i].stopCode != c.stops[j].stopCode
  }

  predicate BusIdsDistinct(c: Catalog) {
    forall i, j :: 0 <= i < j < |c.buses| ==> c.buses[i].id != c.buses[j].id
  }

  predicate LocationIdsDistinct(c: Catalog) {
    forall i, j :: 0 <= i < j < |c.locations| ==> c.locations[i].id != c.locations[j].id
  }

  /** Every bus names an existing route. */
  predicate BusRoutesResolve(c: Catalog) {
    forall i :: 0 <= i < |c.buses| ==> exists k :: 0 <= k < |c.routes| && c.routes[k].id == c.buses[i].routeId
  }

  /** Every bus has room and a passenger count within it. */
  predicate LoadsWithinCapacity(c: Catalog) {
    forall i :: 0 <= i < |c.buses| ==>
      c.buses[i].capacity > 0 && 0 <= c.buses[i].currentPassengers <= c.buses[i].capacity
  }

  /** Every location names an existing bus. */
  predicate LocationBusesResolve(c: Catalog) {
    forall i :: 0 <= i < |c.locations| ==> exists k :: 0 <= k < |c.buses| && c.buses[k].id == c.locations[i].busId
  }

  /** Every present next stop names an existing stop. */
  predicate NextStopsResolve(c: Catalog) {
    forall i :: 0 <= i < |c.locations| && c.locations[i].nextStopId.Some? ==>
      exists k :: 0 <= k < |c.stops| && c.stops[k].id == c.locations[i].nextStopId.value
  }

  /** Each bus has exactly one location record. */
  predicate OneLocationPerBus(c: Catalog) {
    && (forall i :: 0 <= i < |c.buses| ==> exists k :: 0 <= k < |c.locations| && c.locations[k].busId == c.buses[i].id)
    && (forall k, l :: 0 <= k < l < |c.locations| ==> c.locations[k].busId != c.locations[l].busId)
  }

  /** Within each seed list no two records share an id. */
  predicate DriverIdsDistinct(ds: seq<Driver>) {
    forall i, j :: 0 <= i < j < |ds| ==> ds[i].id != ds[j].id
  }

  /** No two drivers share an employee id. */
  predicate EmployeeIdsDistinct(ds: seq<Driver>) {
    forall i, j :: 0 <= i < j < |ds| ==> ds[i].employeeId != ds[j].employeeId
  }

  predicate PassengerIdsDistinct(ps: seq<Passenger>) {
    forall i, j :: 0 <= i < j < |ps| ==> ps[i].id != ps[j].id
  }

  /** No two passengers that have an email share it. */
  predicate EmailsDistinct(ps: seq<Passenger>) {
    forall i, j :: 0 <= i < j < |ps| && ps[i].email.Some? ==> ps[i].email != ps[j].email
  }

  lemma RouteIdsUnique()
    ensures UniqueKeys(Routes, (r: Route) => r.id)
  {
  }

  /** No two seed routes share an id. */
  lemma SeedRouteIdsDistinct(loadedAt: int)
    ensures RouteIdsDistinct(Seed(loadedAt))
  {
    RouteIdsUnique();
    UniqueKeysDistinct(Routes, (r: Route) => r.id);
  }

  // The ten stops are checked in two halves to keep each proof obligation small.

  lemma FirstStopIdsUnique()
    ensures UniqueKeys(StopsOneToFive, (s: BusStop) => s.id)
  {
  }

  lemma LastStopIdsUnique()
    ensures UniqueKeys(StopsSixToTen, (s: BusStop) => s.id)
  {
  }

  lemma StopHalvesIdsApart()
    ensures Apart(StopsOneToFive, StopsSixToTen, (s: BusStop) => s.id)
  {
  }

  lemma FirstStopCodesUnique()
    ensures UniqueKeys(StopsOneToFive, (s: BusStop) => s.stopCode)
  {
  }

  lemma LastStopCodesUnique()
    ensures UniqueKeys(StopsSixToTen, (s: BusStop) => s.stopCode)
  {
  }

  lemma StopHalvesCodesApart()
    ensures Apart(StopsOneToFive, StopsSixToTen, (s: BusStop) => s.stopCode)
  {
  }

  /** No two seed stops share an id. */
  lemma SeedStopIdsDistinct(loadedAt: int)
    ensures StopIdsDistinct(Seed(loadedAt))
  {
    FirstStopIdsUnique();
    LastStopIdsUnique();
    StopHalvesIdsApart();
    UniqueKeysAppend(StopsOneToFive, StopsSixToTen, (s: BusStop) => s.id);
    UniqueKeysDistinct(Stops, (s: BusStop) => s.id);
  }

  /** No two seed stops share a stop code. */
  lemma SeedStopCodesDistinct(loadedAt: int)
    ensures StopCodesDistinct(Seed(loadedAt))
  {
    FirstStopCodesUnique();
    LastStopCodesUnique();
    StopHalvesCodesApart();
    UniqueKeysAppend(StopsOneToFive, StopsSixToTen, (s: BusStop) => s.stopCode);
    UniqueKeysDistinct(Stops, (s: BusStop) => s.stopCode);
  }

  lemma BusIdsUnique()
    ensures UniqueKeys(Buses, (b: Bus) => b.id)
  {
  }

  lemma LocationKeysUnique()
    ensures UniqueKeys(LocationSeeds, (l: SeedLocation) => l.id)
    ensures UniqueKeys(LocationSeeds, (l: SeedLocation) => l.busId)
  {
  }

  /** No two seed buses share an id. */
  lemma SeedBusIdsDistinct(loadedAt: int)
    ensures BusIdsDistinct(Seed(loadedAt))
  {
    BusIdsUnique();
    UniqueKeysDistinct(Buses, (b: Bus) => b.id);
  }

  /** No two seed locations share an id. */
  lemma SeedLocationIdsDistinct(loadedAt: int)
    ensures LocationIdsDistinct(Seed(loadedAt))
  {
    LocationKeysUnique();
    UniqueKeysDistinct(LocationSeeds, (l: SeedLocation) => l.id);
  }

  lemma BusesLocated()
    ensures KeysResolve(Buses, (b: Bus) => Some(b.id), LocationSeeds, (l: SeedLocation) => l.busId)
  {
  }

  lemma BusesOnRoutes()
    ensures KeysResolve(Buses, (b: Bus) => Some(b.routeId), Routes, (r: Route) => r.id)
  {
  }

  lemma BusesLoaded()
    ensures All(Buses, (b: Bus) => b.capacity > 0 && 0 <= b.currentPassengers <= b.capacity)
  {
  }

  /** Every seed bus runs on a seed route. */
  lemma SeedBusRoutesResolve(loadedAt: int)
    ensures BusRoutesResolve(Seed(loadedAt))
  {
    BusesOnRoutes();
    forall i | 0 <= i < |Buses|
      ensures exists k :: 0 <= k < |Routes| && Routes[k].id == Buses[i].routeId
    {
      KeysResolveAt(Buses, (b: Bus) => Some(b.routeId), Routes, (r: Route) => r.id, i);
    }
  }

  /** Every seed bus has room and carries a load within its capacity. */
  lemma SeedLoadsWithinCapacity(loadedAt: int)
    ensures LoadsWithinCapacity(Seed(loadedAt))
  {
    BusesLoaded();
    forall i | 0 <= i < |Buses|
      ensures Buses[i].capacity > 0 && 0 <= Buses[i].currentPassengers <= Buses[i].capacity
    {
      AllAt(Buses, (b: Bus) => b.capacity > 0 && 0 <= b.currentPassengers <= b.capacity, i);
    }
  }

  lemma LocationsOnBuses()
    ensures KeysResolve(LocationSeeds, (l: SeedLocation) => Some(l.busId), Buses, (b: Bus) => b.id)
  {
  }

  /** Every seed location belongs to a seed bus. */
  lemma SeedLocationBusesResolve(loadedAt: int)
    ensures LocationBusesResolve(Seed(loadedAt))
  {
    var ls := Locations(loadedAt);
    LocationsOnBuses();
    forall i | 0 <= i < |ls|
      ensures exists k :: 0 <= k < |Buses| && Buses[k].id == ls[i].busId
    {
      KeysResolveAt(LocationSeeds, (l: SeedLocation) => Some(l.busId), Buses, (b: Bus) => b.id, i);
    }
  }

  /** Each seed bus has exactly one seed location. */
  lemma SeedOneLocationPerBus(loadedAt: int)
    ensures OneLocationPerBus(Seed(loadedAt))
  {
    var ls := Locations(loadedAt);
    BusesLocated();
    forall i | 0 <= i < |Buses|
      ensures exists k :: 0 <= k < |ls| && ls[k].busId == Buses[i].id
    {
      KeysResolveAt(Buses, (b: Bus) => Some(b.id), LocationSeeds, (l: SeedLocation) => l.busId, i);
      var k :| 0 <= k < |LocationSeeds| && LocationSeeds[k].busId == Buses[i].id;
      assert ls[k].busId == Buses[i].id;
    }
    LocationKeysUnique();
    UniqueKeysDistinct(LocationSeeds, (l: SeedLocation) => l.busId);
  }

  /** Every present next stop of a seed location is a seed stop, and locations 4 and 5 have none. */
  lemma SeedNextStopsResolve(loadedAt: int)
    ensures NextStopsResolve(Seed(loadedAt))
    ensures Seed(loadedAt).locations[3].nextStopId.None? && Seed(loadedAt).locations[4].nextStopId.None?
  {
    var ls := Locations(loadedAt);
    forall i | 0 <= i < |ls| && ls[i].nextStopId.Some?
      ensures exists k :: 0 <= k < |Stops| && Stops[k].id == ls[i].nextStopId.value
    {
      assert ls[i].nextStopId == LocationSeeds[i].nextStopId;
      if i == 1 {
        assert Stops[9].id == "10";
      } else {
        assert Stops[2].id == "3";
      }
    }
  }

  /** Every seed driver is verified and active, and the seed accounts have distinct ids and emails. */
  lemma SeedAccountsWellFormed()
    ensures forall i :: 0 <= i < |Drivers| ==> Drivers[i].isVerified && Drivers[i].isActive
    ensures DriverIdsDistinct(Drivers) && EmployeeIdsDistinct(Drivers)
    ensures PassengerIdsDistinct(Passengers) && EmailsDistinct(Passengers)
  {
    assert All(Drivers, (d: Driver) => d.isVerified && d.isActive);
    forall i | 0 <= i < |Drivers| ensures Drivers[i].isVerified && Drivers[i].isActive {
      AllAt(Drivers, (d: Driver) => d.isVerified && d.isActive, i);
    }
    UniqueKeysDistinct(Drivers, (d: Driver) => d.id);
    UniqueKeysDistinct(Drivers, (d: Driver) => d.employeeId);
    UniqueKeysDistinct(Passengers, (p: Passenger) => p.id);
    UniqueKeysDistinct(Passengers, (p: Passenger) => p.email.GetOr(""));
  }
}
