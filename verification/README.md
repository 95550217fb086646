# BusWhere+ — a Dafny model of the tracking and account core

BusWhere+ is a bus-tracking web application. Passengers search for routes and follow the
buses on them, and drivers sign in with an employee id and a one-time password. Its core
is a mock service layer over fixed in-memory data: routes, stops, buses, bus locations,
drivers and passengers. React hooks on top of that layer hold search results, live
locations, route details, nearby stops, the signed-in user and the interface language,
and the map screen turns the search results into rows and summaries.

This project models that core in Dafny and proves properties of the model:

- `wrappers.dfy`, `seqs.dfy`, `text.dfy`: `Option`/`Result`, the JavaScript array
  operations the code uses (`find`, `filter`, `map`, `slice`), and ASCII lower-casing with
  substring search.
- `fixtures.dfy` (module `Fixtures`): the record types and the six fixture arrays. The
  fixture invariants are proved: ids unique, references resolve, loads within capacity,
  one location per bus.
- `bus_api.dfy` (module `BusApi`): `searchBuses`, `getLiveLocations`, `getRoutes`,
  `getRouteDetails` and the passenger clamp of the route ticker.
- `accounts_api.dfy` (module `AuthApi`): passenger and driver sign-up, which mutate the
  account lists held in the `Registry` class, and passenger login, the driver
  one-time-password flow and the driver status query.
- `bus_tracking.dfy` (module `BusTracking`): the tracking hooks as classes whose methods
  overwrite their state fields.
- `auth.dfy` (module `Auth`): the authentication provider: session restore, sign-up,
  sign-in, sign-out.
- `language.dfy` (module `Language`): the language hook and its translation fallback.
- `map_section.dfy` (module `MapSection`): the map screen's bus rows, status colours,
  passenger and arrival-time summaries, and the selected-bus toggle.

Modelling conventions:

- Time is an integer number of milliseconds. Every `Date.now()` is a `now` or `newId`
  parameter.
- The fixture locations are stamped relative to the moment the data module loads, so the
  seed catalog is `Fixtures.Seed(loadedAt)`.
- Every `Math.random()` draw is an integer parameter.
- Coordinates, speed and heading are `real` values that nothing computes with.
- An awaited call inside a hook is a `Fetched` parameter: either the response's optional
  `data` or what the call threw. The `...FromCatalog` methods feed the modelled service
  functions in.
- The browser storage entries are fields of the classes: `auth_session` is
  `AuthProvider.stored` and `preferredLanguage` is `LanguageState.savedLanguage`.

The code behaves as follows, and so does the model:

- An empty query matches every route, active or not.
- A bus's location is the first location record with its id, not the most recent one.
- Route details list the first five stops of the whole stop list, whatever the route.
- Passenger login never compares the password.
- Driver login accepts any six-character password.

## Model

| member | source | states |
|---|---|---|
| Fixtures.SeedLocation.At | src/lib/mockData.ts:256-315 | a seeded location's arrival is its stated whole minutes after load time, and it is recorded at load time |
| Fixtures.SeedRouteIdsDistinct | src/lib/mockData.ts:64-115 | no two seeded routes share an id |
| Fixtures.SeedStopIdsDistinct | src/lib/mockData.ts:118-209 | no two seeded stops share an id |
| Fixtures.SeedStopCodesDistinct | src/lib/mockData.ts:118-209 | no two seeded stops share a stop code |
| Fixtures.SeedBusIdsDistinct | src/lib/mockData.ts:212-253 | no two seeded buses share an id |
| Fixtures.SeedLocationIdsDistinct | src/lib/mockData.ts:256-315 | no two seeded locations share an id |
| Fixtures.SeedBusRoutesResolve | src/lib/mockData.ts:212-253 | every bus's route id names a seeded route |
| Fixtures.SeedLoadsWithinCapacity | src/lib/mockData.ts:212-253 | every bus has capacity > 0 and 0 <= passengers <= capacity |
| Fixtures.SeedLocationBusesResolve | src/lib/mockData.ts:256-315 | every location's bus id names a seeded bus |
| Fixtures.SeedOneLocationPerBus | src/lib/mockData.ts:256-315 | every bus has a location record and no two records name the same bus |
| Fixtures.SeedNextStopsResolve | src/lib/mockData.ts:256-315 | every present next-stop id names a seeded stop; locations 4 and 5 have none |
| Fixtures.SeedAccountsWellFormed | src/lib/mockData.ts:318-355 | seeded drivers are verified and active; driver ids, employee ids, passenger ids and emails are unique |
| Text.Lower | src/lib/mockAPI.ts:52-57 | lower-casing keeps the length and lowers each character (ASCII) |
| Text.LowerIdempotent | src/lib/mockAPI.ts:52-57 | lower-casing twice is lower-casing once |
| Text.IncludesIffOccurs | src/lib/mockAPI.ts:52-57 | `includes` holds exactly when the needle occurs at some index of the haystack |
| Text.EmptyIncluded | src/lib/mockAPI.ts:52-57 | every string includes the empty string |
| BusApi.NextStopName | src/lib/mockAPI.ts:73-88 | a bus's next stop is the name of a stop with the location's next-stop id, else "Unknown" (no id, empty id, no such stop) |
| BusApi.NextStopIsFirstMatch | src/lib/mockAPI.ts:73-88 | the name shown is that of the first stop with the id, "Unknown" if that name is empty |
| BusApi.TrackBus | src/lib/mockAPI.ts:71-91 | a tracked bus keeps the bus's id, number, passengers and capacity; its location is absent exactly when no record names the bus, else built from the first such record |
| BusApi.FirstLocation | src/lib/mockAPI.ts:72 | the location `find` picks for a bus is the first record with that bus id |
| BusApi.ResultFor | src/lib/mockAPI.ts:59-94 | a result repeats the route's summary; every tracked bus is a bus on that route, and every bus on the route is tracked |
| BusApi.ResultKeepsBusOrder | src/lib/mockAPI.ts:59 | tracked buses follow the bus list: buses a + b give the tracked buses of a, then those of b |
| BusApi.ResultForOneBus | src/lib/mockAPI.ts:59-71 | a single bus is tracked exactly once when it runs on the route, and not at all otherwise |
| BusApi.ResultForNoBuses | src/lib/mockAPI.ts:59 | without buses no route tracks any |
| BusApi.TrackingReadsLocationsAndStops | src/lib/mockAPI.ts:71-91 | tracking a bus depends only on the location records and the stops |
| BusApi.SearchBuses | src/lib/mockAPI.ts:49-97 | there are never more results than routes |
| BusApi.SearchFindsOnlyMatches | src/lib/mockAPI.ts:52-59 | every result is the result for a route whose number, name, start or end contains the query, ignoring case |
| BusApi.SearchFindsAllMatches | src/lib/mockAPI.ts:52-59 | every matching route has its result in the search results |
| BusApi.SearchKeepsRouteOrder | src/lib/mockAPI.ts:52-94 | results follow the route order: searching routes a + b gives the results for a, then those for b |
| BusApi.ResultIgnoresRoutes | src/lib/mockAPI.ts:59-94 | a route's result depends on its buses, locations and stops, not on the route list |
| BusApi.SearchOverRoutes | src/lib/mockAPI.ts:52-94 | searching any route list yields the per-route results of the matching routes, in order |
| BusApi.SearchIgnoresCoordinates | src/lib/mockAPI.ts:49-57 | latitude and longitude never change the search result |
| BusApi.SearchIgnoresQueryCase | src/lib/mockAPI.ts:52-57 | a query and its lower-cased form find the same results |
| BusApi.EmptyQueryReturnsAllRoutes | src/lib/mockAPI.ts:124-127 | the empty query yields one result per route of `getRoutes`, in the same order |
| BusApi.SearchBusesLocated | src/lib/mockAPI.ts:71-91 | in a catalog that locates every bus within capacity, every searched bus has a location and a load within capacity |
| BusApi.SeedSearchBusesLocated | src/lib/mockAPI.ts:71-91 | over the seed catalog no searched bus lacks a location, and every load is within capacity |
| BusApi.ResultBusesLocated | src/lib/mockAPI.ts:71-91 | in such a catalog, every bus of one route's result has a location and a load within capacity |
| BusApi.BusLocated | src/lib/mockAPI.ts:71-91 | in such a catalog, each tracked bus has a location and a load within capacity |
| BusApi.RouteLabelFor | src/lib/mockAPI.ts:105-113 | the route label is absent exactly when no route has the id, else the first such route's number and name |
| BusApi.LiveBusFor | src/lib/mockAPI.ts:104-114 | the bus is absent exactly when no bus has the id, else the first such bus, carrying its route's label |
| BusApi.NextStopFor | src/lib/mockAPI.ts:106-108 | a missing or empty next-stop id gives no stop; otherwise the first stop with the id, absent exactly when none has it |
| BusApi.LiveEntryFor | src/lib/mockAPI.ts:103-118 | a live entry keeps its location; its bus, route and next stop are absent exactly when their ids do not resolve (a missing or empty next-stop id gives no stop); present ones are the first bus with the id, the first route's number and name, and the first stop with the id |
| BusApi.GetLiveLocations | src/lib/mockAPI.ts:100-121 | one live entry per location record, in the same order, each the join of that record |
| BusApi.LiveLocationsResolve | src/lib/mockAPI.ts:103-118 | when references resolve, every live entry has its bus and route, and its next stop when one is named |
| BusApi.SeedLiveLocationsResolve | src/lib/mockAPI.ts:103-118 | over the seed catalog every live entry has its bus and that bus's route |
| BusApi.Numbered | src/lib/mockAPI.ts:154-158 | stop i of the list gets sequence number i + 1 and travel time 10 i |
| BusApi.GetRouteDetails | src/lib/mockAPI.ts:145-166 | "Route not found" exactly when no route has the id; otherwise the first route with the id, with the first min(5, #stops) stops, numbered |
| BusApi.TickPassengers | src/lib/mockAPI.ts:391-393 | the ticked passenger count is the old count plus the change, clamped to [0, capacity]; it is 0 when the capacity is negative |
| AuthApi.DecimalString | src/lib/mockAPI.ts:276 | a number's decimal rendering is a non-empty string of digits |
| AuthApi.DecimalRoundTrip | src/lib/mockAPI.ts:276 | reading the digits back gives the number |
| AuthApi.DecimalLength | src/lib/mockAPI.ts:276 | a number of k + 1 digits renders as k + 1 characters |
| AuthApi.SixDigits | src/lib/mockAPI.ts:276 | every password the generator can draw, 100000..999999, has six characters |
| AuthApi.NewPassenger | src/lib/mockAPI.ts:193-199 | a new passenger keeps id, email, name and phone; the language is the one given, or "en" when none or an empty one is given |
| AuthApi.NewDriver | src/lib/mockAPI.ts:246-254 | a new driver keeps its details and starts unverified and inactive |
| AuthApi.PassengerLogin | src/lib/mockAPI.ts:210-230 | "Invalid credentials" exactly when no passenger has the email; otherwise the first such passenger and a session ending one hour after now |
| AuthApi.LoginIgnoresPassword | src/lib/mockAPI.ts:210-216 | the password never changes the login result |
| AuthApi.SendDriverOtp | src/lib/mockAPI.ts:265-283 | "Employee ID not found" for an unknown id, before "not verified or inactive"; success exactly for a verified, active first match; the password is six digits with value 100000 + draw |
| AuthApi.DriverLogin | src/lib/mockAPI.ts:286-305 | "Invalid OTP format" whenever the password is not six characters; otherwise success exactly when a verified, active driver has the id, and it returns the first such driver |
| AuthApi.GetDriverStatus | src/lib/mockAPI.ts:308-324 | "Driver not found" exactly when no driver has the id; otherwise the first such driver's verification state |
| AuthApi.SignupThenLogin | src/lib/mockAPI.ts:178-230 | after a passenger signs up with a free email, logging in with it returns exactly the new record |
| AuthApi.OtpIssuedIffLoginSucceeds | src/lib/mockAPI.ts:265-305 | with unique employee ids, a password is issued exactly when a six-character login succeeds, and that driver shows as verified and active |
| AuthApi.IssuedOtpIsWellFormed | src/lib/mockAPI.ts:276-291 | an issued password always passes the login format check |
| AuthApi.NewDriverAwaitsVerification | src/lib/mockAPI.ts:233-324 | a newly registered driver is refused a password and a login, and shows as unverified and inactive |
| AuthApi.AddPassengerKeepsEmailsDistinct | src/lib/mockAPI.ts:186-201 | adding a passenger whose email is unused keeps emails unique |
| AuthApi.AddDriverKeepsEmployeeIdsDistinct | src/lib/mockAPI.ts:240-256 | adding a driver whose employee id is unused keeps employee ids unique |
| AuthApi.Registry.constructor | src/lib/mockData.ts:318-355 | the account lists start as the fixtures, with unique emails and employee ids |
| AuthApi.Registry.PassengerSignup | src/lib/mockAPI.ts:178-207 | a taken email fails with "Email already registered" and changes nothing; otherwise exactly the new passenger is appended and returned; emails stay unique |
| AuthApi.Registry.DriverSignup | src/lib/mockAPI.ts:233-262 | a taken employee id fails with "Employee ID already registered" and changes nothing; otherwise exactly the new driver is appended and the pending message returned |
| BusTracking.BusTracker.constructor | src/hooks/useBusTracking.ts:31-34 | the hook starts with no results, no live locations, not loading, no error |
| BusTracking.BusTracker.BeginSearch | src/hooks/useBusTracking.ts:37-39 | starting a search sets loading and clears the error |
| BusTracking.BusTracker.CompleteSearch | src/hooks/useBusTracking.ts:41-49 | success stores the data (or no results); failure stores the error's message, or "Failed to search buses", and clears the results; loading ends false |
| BusTracking.BusTracker.SearchBuses | src/hooks/useBusTracking.ts:37-50 | a search against the catalog ends with exactly the service's results, no error, not loading |
| BusTracking.BusTracker.RefreshLiveLocations | src/hooks/useBusTracking.ts:53-60 | a successful refresh replaces the live locations; a failed one changes nothing |
| BusTracking.BusTracker.RefreshFromCatalog | src/hooks/useBusTracking.ts:53-60 | a refresh against the catalog stores exactly the service's live entries |
| BusTracking.Settled | src/hooks/useBusTracking.ts:93-115 | an awaited service result delivers the data on success and throws an error with the service's message otherwise |
| BusTracking.RouteDetailsView.constructor | src/hooks/useBusTracking.ts:89-91 | the hook starts with no details, not loading, no error |
| BusTracking.RouteDetailsView.Load | src/hooks/useBusTracking.ts:93-115 | a missing or empty id clears the details without a call; a failure clears them and records the message, or "Failed to get route details" |
| BusTracking.RouteDetailsView.LoadFromCatalog | src/hooks/useBusTracking.ts:93-115 | against the catalog the details are absent exactly for an unknown id, with error "Route not found"; otherwise they are exactly the service's route details |
| BusTracking.NearbyStopsView.constructor | src/hooks/useBusTracking.ts:119-121 | the hook starts with no stops, not loading, no error |
| BusTracking.NearbyStopsView.Load | src/hooks/useBusTracking.ts:125-147 | a missing or zero latitude or longitude empties the stops without a call; a failure empties them and records the message, or "Failed to get nearby stops" |
| BusTracking.BusSubscriptionView.constructor | src/hooks/useBusTracking.ts:150-151 | the hook starts with no data and no bus watched |
| BusTracking.BusSubscriptionView.Watch | src/hooks/useBusTracking.ts:155-169 | a missing or empty bus id clears the data; another id keeps the data until its first update |
| BusTracking.BusSubscriptionView.Deliver | src/hooks/useBusTracking.ts:161-164 | an update for the watched bus replaces the data with the update's new record |
| Auth.PassengerAccount | src/hooks/useAuth.ts:91-96 | a passenger user has the record's id and email and the passenger type |
| Auth.DriverAccount | src/hooks/useAuth.ts:109-113 | a driver user has the driver's id, no email and the driver type |
| Auth.RestoreFrom | src/hooks/useAuth.ts:36-48 | restoring yields a user exactly for an unexpired saved session; such a session stays, an expired or unreadable entry is removed, a blank one is left |
| Auth.RestoreWithinTheHour | src/hooks/useAuth.ts:40-44 | a session saved at t restores its user before t + one hour and is removed from then on |
| Auth.RestoreIdempotent | src/hooks/useAuth.ts:36-48 | restoring twice at the same time leaves what restoring once leaves |
| Auth.AuthProvider.constructor | src/hooks/useAuth.ts:31-32 | the provider starts with no user and not loading |
| Auth.AuthProvider.Restore | src/hooks/useAuth.ts:34-49 | the mount effect leaves the user and stored entry that `RestoreFrom` gives |
| Auth.AuthProvider.SignUp | src/hooks/useAuth.ts:51-83 | passenger sign-up appends the passenger, sets the user from the new record and saves a one-hour session; driver sign-up touches neither user nor storage; failures leave both unchanged; loading ends false |
| Auth.AuthProvider.SignIn | src/hooks/useAuth.ts:85-129 | success exactly when the service login succeeds, setting the passenger or driver user and a one-hour session; failure reports the message and leaves user and storage unchanged |
| Auth.AuthProvider.SignOut | src/hooks/useAuth.ts:131-141 | sign-out removes the saved session and the user; loading ends false |
| Auth.AuthProvider.SendDriverOtp | src/hooks/useAuth.ts:143-145 | the provider returns exactly the service's answer |
| Auth.SignUpSurvivesReload | src/hooks/useAuth.ts:54-73 | a passenger who signed up is restored as the same user on a reload within the hour |
| Language.Translate | src/hooks/useLanguage.ts:13-15 | the current language's non-empty text, else the English text; a language missing from the table fails |
| Language.EnglishIsItsOwnFallback | src/hooks/useLanguage.ts:13-15 | in English the English text is returned as it stands |
| Language.TranslationNonEmpty | src/hooks/useLanguage.ts:13-15 | a lookup is non-empty whenever the English text is |
| Language.LanguageState.constructor | src/hooks/useLanguage.ts:6 | the hook starts in English |
| Language.LanguageState.ChangeLanguage | src/hooks/useLanguage.ts:8-11 | the chosen language becomes current and is saved |
| Language.LanguageState.Restore | src/hooks/useLanguage.ts:17-22 | the saved language is adopted exactly when it is non-empty and in the table |
| Language.LanguageState.T | src/hooks/useLanguage.ts:13-15 | with all three languages in the table, a lookup never fails |
| MapSection.EtaMinutes | src/components/MapSection.tsx:34-35 | the arrival lies within the last of the reported whole minutes: (m - 1) minutes < arrival - now <= m minutes; 0 without an arrival |
| MapSection.EtaOfWholeMinutes | src/components/MapSection.tsx:34-35 | an arrival exactly m minutes away shows m |
| MapSection.Row | src/components/MapSection.tsx:30-38 | a row keeps the bus's id and passengers and the route number; a missing or empty next stop shows "Unknown"; without a location it shows 0 and "unknown"; otherwise the status name and the rounded-up minutes |
| MapSection.BusData | src/components/MapSection.tsx:29-39 | there is one row per bus over all results |
| MapSection.BusDataAt | src/components/MapSection.tsx:29-39 | bus j of result i is the row after all rows of the earlier results, in bus order |
| MapSection.BusDataRowsFrom | src/components/MapSection.tsx:29-39 | every row is the row of some bus of some result |
| MapSection.RowsHaveStatus | src/components/MapSection.tsx:37 | when every bus has a location, every row's status is one of the four status names |
| MapSection.SeedRowsHaveStatus | src/components/MapSection.tsx:37 | over the seed catalog no row of any search shows "unknown" |
| MapSection.TotalPassengersAppend | src/components/MapSection.tsx:190 | the passenger total of joined rows is the sum of the totals |
| MapSection.TotalPassengersBounded | src/components/MapSection.tsx:190 | rows within their capacities total between 0 and the capacities' sum |
| MapSection.RoundedQuotient | src/components/MapSection.tsx:196 | `Math.round(s / n)`: r - 1/2 <= s / n < r + 1/2, multiplied through by 2n |
| MapSection.AverageEta | src/components/MapSection.tsx:196 | the average is the rounded mean of the rows' arrival times, 0 for no rows |
| MapSection.AverageOfEqualEtas | src/components/MapSection.tsx:196 | rows that all show the same arrival time average to it |
| MapSection.RoundedMultiple | src/components/MapSection.tsx:196 | n * e shared among n rounds to e |
| MapSection.SumOfEqualEtas | src/components/MapSection.tsx:196 | rows that all show e minutes sum to (number of rows) * e |
| MapSection.StatusColor | src/components/MapSection.tsx:62-69 | on-time green, delayed red, early blue, any other status gray |
| MapSection.StatusColors | src/components/MapSection.tsx:62-69 | of the four statuses only a breakdown is gray, like "unknown"; the three colours differ |
| MapSection.Toggled | src/components/MapSection.tsx:142 | clicking the selected bus (same id) deselects; clicking any other bus selects it |
| MapSection.ToggleTwice | src/components/MapSection.tsx:142 | two clicks on a bus leave it selected exactly when it was selected before |
| MapSection.BusPanel.constructor | src/components/MapSection.tsx:23 | the panel starts with no bus selected |
| MapSection.BusPanel.Click | src/components/MapSection.tsx:142 | the panel's selection becomes the toggled selection |

## Left out

- `getNearbyStops` (src/lib/mockAPI.ts:130-142) computes a floating-point distance with a square root. It is not modelled, so `NearbyStopsView.Load` takes the lookup's outcome as a parameter.
- The subscription timers and their random jitter of coordinates and speed (src/lib/mockAPI.ts:330-378) are not modelled. Of the route ticker only the passenger clamp is modelled (`TickPassengers`), with the random change as a parameter.
- `BusSubscriptionView.Deliver` takes the pushed update as a parameter. It requires, as the timer guarantees, that the update is for the watched bus.
- `BusTracker` does not model the live-update subscription that calls the refresh. A refresh is a method call.
- `updateBusLocation`, the simulated network `delay`, and console logging are not modelled.
- The two server-side functions under supabase/functions are not part of this model. Their search differs from the mock layer modelled here: it returns only active routes with active, located buses, ordered by route number and at most 20. Its live locations cover only the last ten minutes, newest first. The mock layer does none of this.
- ISO timestamp strings, and `new Date(...).getTime()` reading them back, are integer milliseconds.
- `MapSection.EtaMinutes`: JavaScript's negative zero from rounding up a small negative fraction is plain 0 here.
- `toLowerCase` is ASCII lower-casing. Other letters are left as they are.
- JavaScript string lengths count UTF-16 code units. Here a string is a sequence of characters.
- `BusTracking.Falsy`: a `NaN` coordinate, which React also treats as absent, is not modelled.
- `Auth.Stored`: a stored value that parses to something other than a session record is not modelled. The model has a session record, a blank entry or an unreadable one.
- `Auth.AuthProvider.SignUp` and `Auth.AuthProvider.SignIn` take one `now` for every clock reading in a flow. The API session's own expiry is discarded by the hook and is not modelled there.
- `Auth.AuthProvider.SignUp`, `Auth.AuthProvider.SignIn` and `Auth.AuthProvider.SignOut` state the final loading flag only. While the call is awaited the flag is true, and that state is not observable here.
- `BusTracking.RouteDetailsView.Load` and `BusTracking.NearbyStopsView.Load`: as in the above, only the final loading flag is stated.
- React's rendering, effect scheduling and batching of state updates are not modelled. Concurrent or overlapping requests are not modelled either: the code has no request ordering, so only the sequential outcome is specified.
- The map screen's `loading` and `isRefreshing` flags are set by timers and are not modelled. Neither are the rendering and the placeholder marker positions.
- The translation table is not part of this source. It is a parameter mapping a language to a key to text.
- `Language.LanguageState.Restore`: a saved name that a JavaScript object inherits from its prototype, such as "toString", would count as present there. It does not count as present here.
- `BusApi.GetRoutes` has no contract of its own: it returns the route list. `BusApi.EmptyQueryReturnsAllRoutes` relates it to the search.
- `AuthApi.SendDriverOtp` takes the random draw as an integer in [0, 900000). That integer stands for `Math.floor(Math.random() * 900000)`.
- Ids made from the clock (`newId`) are parameters. Two sign-ups in the same millisecond would share an id, and the model does not claim ids are unique after sign-up.
- Passwords are accepted at sign-up and login but never stored or compared, as in the code.
