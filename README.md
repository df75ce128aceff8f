# EV truck dispatch engine — a verified model

The dashboard helps a dispatcher send electric semi trucks out on delivery routes.
For the selected route, the back end computes one feasibility result per truck:

- the energy the trip needs;
- the predicted state of charge (SoC) at arrival;
- a green/yellow/red status.

The front end then does the following:

- ranks the trucks with a four-key comparator and a stable sort;
- picks the best match;
- tallies the statuses per route;
- on every truck card, shows a status badge chosen by a first-match-wins cascade, border and chip colours, the projected time the truck becomes available, its transit window, and the net charge time once charging that overlaps loading is subtracted.

This project models that dispatch engine in Dafny and proves what the code promises.

Modules:

- `Common`: the nullable wrapper (`Option`), the error-or-value wrapper (`Result`), and `find`/`filter`/`filter(...).length` on sequences.
- `Types`: trucks, routes, stops, legs and feasibility results. The open status strings become closed datatypes with a catch-all arm, and parsing them back yields the same string.
- `Records`: a JavaScript object used as a dictionary. It holds string keys in insertion order. Assigning to a key that is present replaces its value in place; assigning to a new key appends it.
- `StableSort`: one stable insertion sort serving both ends: JavaScript's `Array.prototype.sort` on the truck list and Python's `list.sort(reverse=True)` on the results.
  - `Sort` is its specification on sequences.
  - `InsertionSort` sorts an array in place and is proved equal to `Sort`.
  - The sort only asks whether the element being placed goes strictly before an element already placed. V8's insertion asks exactly that question of the comparator.
  - Python's `sort(key=..., reverse=True)` works differently: it reverses the list, sorts it ascending by asking `key(x) < key(e)`, and reverses again. Its output equals the stable sort by "larger arrival SoC goes first" because the keys are totally ordered (the model has no NaN).
- `TruckCard` (`components/TruckCard.tsx`): the badge cascade, the colours, the time projection, the overlap reducer, and which parts of the card are shown.
- `App` (`App.tsx`):
  - route selection, as a `Dashboard` class whose selected route is updated in place;
  - the feasibility map, built by a loop of assignments;
  - the `forEach` tally and the `filter` tallies;
  - the comparator and the ranked copy of the truck list, sorted in place in an array;
  - the best match.
- `RouteCard` (`components/RouteCard.tsx`): the priority label, the stop and charger counters, and the compatibility row.
- `Backend` (`backend/main.py`, `get_route_feasibility`):
  - the route lookup, which fails with 404 on an unknown id;
  - the energy and arrival formula and the thresholds;
  - the append loop and the stable descending sort;
  - how the pydantic defaults of the results reach the front-end ranking.

Two behaviours of the code are easy to miss:

- The badge (`renderStatusBadge`, TruckCard.tsx:91-177) never reads `not_available`, so an unavailable result can still show "Pre-charge" or "Infeasible". Only the border (TruckCard.tsx:32) and the card body (TruckCard.tsx:241) test it. `TruckCard.BadgeIgnoresAvailability` states this.
- The comparator is not consistent: when neither truck has an entry, it returns `1` in both directions (App.tsx:86). `App.CompareUnrankedAnomaly` states this, and ECMAScript leaves the order that such a comparator produces implementation-defined. The model follows V8, whose `Array.prototype.sort` only asks `compare(x, placed) < 0` of the element `x` being placed. Read as "goes strictly before", the comparator is a strict weak order (`App.RankOrderIsStrictWeak`), so under V8 the sort is deterministic and trucks without an entry keep their input order. An engine that asked the question the other way round would reverse them. Python's sort in the back end never calls this comparator.

## Model

| member | source | states |
|---|---|---|
| Types.ParseTruckStatus | frontend/src/types/index.ts:8 | reading a truck status keeps the string exactly, and it lands in the catch-all arm iff it is not one of the three keywords |
| Types.TruckStatusRoundTrip | frontend/src/types/index.ts:8 | a canonical status value survives printing and parsing |
| Types.ParseFeasibilityStatus | frontend/src/types/index.ts:54 | the same for feasibility statuses: "green", "yellow", "red" and every other string |
| Types.FeasibilityStatusRoundTrip | frontend/src/types/index.ts:54 | a canonical feasibility status survives printing and parsing |
| Records.Get | frontend/src/App.tsx:84-85 | a lookup yields nothing iff no entry has the key, and otherwise a value stored under the key |
| Records.Values | frontend/src/App.tsx:69 | `Object.values` lists one value per entry |
| Records.GetSet | frontend/src/App.tsx:62 | after `acc[k] = v`, reading `k` gives `v` and every other key reads as before |
| Records.SetShape | frontend/src/App.tsx:62 | an assignment never duplicates a key; a new key is appended at the end; a present key keeps the keys and their order |
| Records.ValuesAppend | frontend/src/App.tsx:69 | appending an entry appends its value to `Object.values` |
| StableSort.InsertAdds | frontend/src/App.tsx:83 | placing one element adds exactly that element |
| StableSort.SortPermutes | frontend/src/App.tsx:83 | the sorted list is a permutation of the input (same length, same multiset) |
| StableSort.SortProject | backend/main.py:106 | sorting carries any projection (an id) along: the projected multiset is unchanged |
| StableSort.SortSorted | frontend/src/App.tsx:83 | for a strict weak order, no element of the output goes strictly before an earlier one |
| StableSort.SortStable | backend/main.py:106 | elements the order cannot tell apart keep their input order (stability) |
| StableSort.SortIdentity | frontend/src/App.tsx:83 | a list already in order is returned unchanged |
| StableSort.SortIdempotent | frontend/src/App.tsx:83 | sorting the sorted list again changes nothing |
| StableSort.InsertAt | frontend/src/App.tsx:83 | moving `a[i]` left into the sorted prefix leaves the prefix equal to the specification's insertion and the rest untouched |
| StableSort.InsertionSort | frontend/src/App.tsx:83 | the in-place sort leaves the array equal to `Sort` of its old contents |
| TruckCard.TotalWaitParts | frontend/src/components/TruckCard.tsx:92 | with no negative part, the wait is at least the charging ETA and at least the pre-charge minutes, and it is 0 iff both are null or 0; a result without pre-charge minutes waits as long as no result |
| TruckCard.TransitWindow | frontend/src/components/TruckCard.tsx:241-298 | the transit chip exists iff the result is not `not_available` and has a trip time; it starts at the projected available time, lasts exactly the trip's minutes in milliseconds, and for a non-negative trip its hours·60 + minutes give the trip back with 0 ≤ minutes < 60 |
| TruckCard.ProjectionAdds | frontend/src/components/TruckCard.tsx:93 | projecting by m1 then m2 minutes equals projecting by m1+m2, and the offset reads back as m1 minutes |
| TruckCard.SplitExact | frontend/src/components/TruckCard.tsx:265-266 | for a non-negative count, hours·60 + minutes gives it back, with 0 ≤ minutes < 60 |
| TruckCard.NetChargeMins | frontend/src/components/TruckCard.tsx:264 | the net charge time is never negative and never below the charge time less the overlap |
| TruckCard.FoldOverlapShift | frontend/src/components/TruckCard.tsx:256-262 | the reducer's starting value only shifts its result |
| TruckCard.OverlapSplit | frontend/src/components/TruckCard.tsx:256-262 | the overlap of the legs is that of all but the last leg plus the last leg's share |
| TruckCard.OverlapBounds | frontend/src/components/TruckCard.tsx:256-262 | with leg charge times ≥ 0, the overlap lies between 0 and 30 minutes times the number of legs that charged where cargo changed hands |
| TruckCard.NoOverlapNoDiscount | frontend/src/components/TruckCard.tsx:257 | when no leg both used a charger and had an unload or a pickup, nothing is subtracted |
| TruckCard.NetChargeBounds | frontend/src/components/TruckCard.tsx:256-264 | net ≥ 0; net = max(0, charge time) when no leg overlaps; net ≤ max(0, charge time) when leg times are ≥ 0; net = 0 for a null or zero charge time when leg times are ≥ 0 (a negative leg time can leave it positive) |
| TruckCard.OverlapScenario | frontend/src/components/TruckCard.tsx:256-264 | one 40-minute charging leg with 500 lbs unloaded and a 50-minute charge: overlap 30, net 20 |
| TruckCard.NetChargeSplit | frontend/src/components/TruckCard.tsx:241-269 | the "+Xh Ym added" chip appears iff the result is not `not_available`, charge is needed and the charge time is non-zero; X·60 + Y is the net minutes with 0 ≤ Y < 60; with leg times ≥ 0 it is at most the charge time, and equal to it when no leg overlaps |
| TruckCard.BadgeCases | frontend/src/components/TruckCard.tsx:91-177 | each badge holds iff its case matches and no earlier case does: pre-charge; green with a wait; yellow; green with no wait; red; then ready, charging (blue without a result, yellow with one), maintenance or the raw status text |
| TruckCard.PrechargeWins | frontend/src/components/TruckCard.tsx:96-103 | a result marked feasible after pre-charge always shows the pre-charge badge with the total wait and the projected time, whatever its status |
| TruckCard.YellowEvenWithoutWait | frontend/src/components/TruckCard.tsx:114-121 | a yellow result (not pre-charge) shows the depot-charge badge even when the wait is 0 |
| TruckCard.BadgeIgnoresAvailability | frontend/src/components/TruckCard.tsx:91-177 | changing `not_available` or `no_charge_needed` never changes the badge |
| TruckCard.PrechargeScenario | frontend/src/components/TruckCard.tsx:92-100 | a 45-minute pre-charge at 12:00 with no charging ETA shows "Pre-charge — 45 min", available at 12:45 |
| TruckCard.BorderCases | frontend/src/components/TruckCard.tsx:31-55 | gray without a result or for `not_available`; otherwise amber iff pre-charge or green with a wait; otherwise the status colour (gray for unknown statuses) |
| TruckCard.ChipMatchesBorder | frontend/src/components/TruckCard.tsx:57-71 | wherever the arrival chip is drawn, its colour equals the border's, although the two test pre-charge and green-with-wait in opposite orders |
| TruckCard.WaitTestsAgree | frontend/src/components/TruckCard.tsx:34 | the colours' per-part wait test agrees with the badge's summed test when no part is negative; an amber badge always meets an amber border on a usable result |
| TruckCard.SocTone | frontend/src/components/TruckCard.tsx:74-78 | green iff soc > 50, yellow iff 20 ≤ soc ≤ 50, red iff soc < 20 |
| TruckCard.DispatchCases | frontend/src/components/TruckCard.tsx:309 | the dispatch button appears iff the result is present, not `not_available` and not red, and the truck is ready or charging; it never appears beside the infeasible banner or the skipped note |
| App.ToggleCases | frontend/src/App.tsx:55-57 | a click deselects iff it hits the selected route and otherwise selects that route; two clicks on one route restore the earlier state iff that was no selection or that route |
| App.Dashboard.constructor | frontend/src/App.tsx:10 | no route is selected at start |
| App.Dashboard.HandleRouteClick | frontend/src/App.tsx:55-57 | the selection becomes the toggle of the old selection, and becomes none iff the old selection was the clicked route |
| App.LastIndexFor | frontend/src/App.tsx:61-63 | the index found holds the id, and no later result does; none iff no result carries the id |
| App.IndexByTruckSpec | frontend/src/App.tsx:61-64 | the map has distinct keys, maps each id to the last result carrying it (and to nothing if none does), and with distinct ids lists the results in their order |
| App.BuildFeasibilityMap | frontend/src/App.tsx:59-65 | the loop of assignments builds exactly the feasibility map of the selection |
| App.FeasibilityMapSpec | frontend/src/App.tsx:60 | the map is empty without a selected route or without results for it; otherwise each id reads as the last result for it |
| App.TallyStatuses | frontend/src/App.tsx:72-77 | the `forEach` tally with its if/else-if chain equals the three `filter(...).length` counts |
| App.FeasibilitySummary | frontend/src/App.tsx:67-79 | there is no summary iff no route is selected or the map is empty; otherwise it is the tally of the map's values |
| App.TallyPartition | frontend/src/App.tsx:248-250 | green + yellow + red + unrecognised statuses = the number of results, so the three buckets never exceed it |
| App.SummariesAgree | frontend/src/App.tsx:246-251 | with one result per truck, the selected route's summary equals that route's card summary |
| App.CompareMatchesKeys | frontend/src/App.tsx:83-110 | `compare(a, b) < 0` iff a's key (missing entry, `not_available`, not-first, charge time with null as 0, arrival SoC descending) comes first; with at most one truck unranked, the comparator is antisymmetric and returns 0 only for equal keys |
| App.CompareUnrankedAnomaly | frontend/src/App.tsx:86 | for two trucks without entries the comparator returns 1 both ways |
| App.KeyLessTotalPreorder | frontend/src/App.tsx:89-109 | the lexicographic key order is irreflexive, transitive and negatively transitive |
| App.RankOrderIsStrictWeak | frontend/src/App.tsx:83-110 | "compare < 0" is a strict weak order on trucks |
| App.Ranked | frontend/src/App.tsx:83 | the ranked list is a permutation of the trucks |
| App.SortedTrucks | frontend/src/App.tsx:81-111 | without a selected route the input list itself; otherwise the in-place sort of a copy, equal to the ranked list |
| App.RankedOrder | frontend/src/App.tsx:83-110 | no ranked truck comes after one whose key comes later |
| App.UnrankedAndUnavailableLast | frontend/src/App.tsx:86-92 | a truck without an entry is followed only by trucks without one; among trucks with entries, a `not_available` one is followed only by `not_available` ones |
| App.RankedWithinAvailability | frontend/src/App.tsx:94-109 | among ranked trucks with equal `not_available`: green and no-charge first, then charge time ascending, then arrival SoC descending |
| App.RankedTiesKeepOrder | frontend/src/App.tsx:83 | trucks with equal keys, or without entries, keep their input order; "tied" is exactly "equal key" |
| App.RankedIdempotent | frontend/src/App.tsx:83-110 | ranking the ranked list again changes nothing |
| App.RankedWithoutEntries | frontend/src/App.tsx:86 | a selected route with no results leaves the list in input order |
| App.NoChargeRanksFirst | frontend/src/App.tsx:94-99 | a green truck needing no charge ranks before a green truck needing 20 minutes |
| App.HigherArrivalRanksFirst | frontend/src/App.tsx:108-109 | with equal earlier keys, arrival 60% ranks before arrival 40% |
| App.BestMatch | frontend/src/App.tsx:113-120 | none without a selected route; with one, the first ranked truck that is green and ready or charging, at whatever position, gives its id (none if that id is empty); none if no truck qualifies; any id returned is that first eligible truck's |
| RouteCard.PriorityLabelOf | frontend/src/components/RouteCard.tsx:29-37 | "Urgent" iff the priority is exactly "urgent"; every other string shows "Standard" |
| RouteCard.MissingListsCountAsEmpty | frontend/src/components/RouteCard.tsx:58-68 | a missing stop or station list counts exactly like an empty one, so a route with neither shows 0 stops, 0 charger stops, 0 stations and 0 chargers |
| RouteCard.ChargerStops | frontend/src/components/RouteCard.tsx:58 | at most the cargo-stop count; 0 iff no stop has a charger; equal to it iff every stop has one |
| RouteCard.TotalChargers | frontend/src/components/RouteCard.tsx:68 | between the station count and stations plus stops; at least the charger stops; equal to the stations iff no stop has a charger |
| RouteCard.AddStop | frontend/src/components/RouteCard.tsx:68 | one more stop adds one cargo stop, and one charger exactly when that stop has one |
| RouteCard.CompatibilityRow | frontend/src/components/RouteCard.tsx:74-87 | the row is shown iff there is a summary, and then it shows its green, yellow and red counts |
| Backend.FindRoute | backend/main.py:74-77 | none iff no route has the id; otherwise the first route with it |
| Backend.ArrivalIsSocLessShare | backend/main.py:86-88 | arrival SoC = current SoC − energy / capacity · 100 |
| Backend.HeavierLoadArrivesLower | backend/main.py:85-88 | on a route of positive length and terrain factor, more cargo needs more energy and arrives with less charge |
| Backend.Classify | backend/main.py:91-96 | green iff arrival ≥ 15, yellow iff 0 ≤ arrival < 15, red iff arrival < 0, never anything else |
| Backend.ResultFor | backend/main.py:98-103 | the result carries the truck's id, the formula's energy and arrival and the classified status; every other field has its model default (no charge time, pre-charge, cost or trip time; zero stops; no legs; needs no charge; available; not pre-charge) |
| Backend.BackendResultBadge | backend/models.py:54-58 | a back-end result has no pre-charge, so the card's wait is the truck's charging ETA alone; it never shows the pre-charge badge; a green one shows "Ready" with no ETA and "Wait for Charge" with a positive ETA |
| Backend.Unsorted | backend/main.py:82-103 | before the sort, one result per truck, in truck-list order |
| Backend.RouteFeasibility | backend/main.py:71-108 | the handler's loop and in-place sort return exactly the lookup failure, the first zero-capacity failure, or the stable descending sort of the per-truck results |
| Backend.UnsortedIds | backend/main.py:98-99 | the result ids are the truck ids, in order |
| Backend.OneResultPerTruck | backend/main.py:74-103 | 404 iff the route id is unknown; a zero capacity fails; otherwise one result per truck, with ids as a multiset equal to the trucks' and results equal to the per-truck results |
| Backend.ByArrivalDescIsStrictWeak | backend/main.py:106 | ordering by larger arrival SoC is a strict weak order |
| Backend.ResultsSortedDescending | backend/main.py:105-106 | the returned arrival SoCs do not increase, and results with equal arrival SoC keep truck-list order |
| Backend.BackendResultsRankByGreenThenArrival | backend/models.py:57-58 | for two back-end results, the front-end comparator puts a truck first iff it is green and the other is not, or both are the same on green and its arrival SoC is higher |
| Backend.GreenFirstForBackendResults | backend/models.py:54-58 | a higher arrival SoC always ranks first, and a front-end ranking of two back-end results never contradicts the back end's order |
| Backend.RouteFeasibilityAsWritten | backend/main.py:85 | as written, the handler succeeds only for a known route and an empty truck list, because reading the route's load fails |
| Backend.AsWrittenFailsWhereCorrectedSucceeds | backend/models.py:38-47 | for a known route and trucks with batteries, the handler as written fails while the handler given the route's load returns one result per truck |

## Left out

- Fetching trucks, routes and results: the `api` module, `initData`, and the loading, error and retry states. These are network I/O. Trucks, routes and results are parameters.
- React hooks, the SoC bar animation, the `showLegs` toggle, and dispatch's `confirm`/`alert`/`console.log`. These are UI effects. `showLegs` is a parameter of the banner predicate.
- Locale formatting (`toLocaleTimeString`, `toLocaleString`, `toFixed`): times are integer milliseconds, and the clock is the `baseMs` parameter.
- Display-only float maths: effective capacity and the percentage of capacity.
- The FastAPI and CORS setup, the root endpoint, and the mock trucks and routes as constants.
- Floating point: numbers are exact `real`s or unbounded integers. NaN and infinities are not modelled, and minute fields are integers.
- Backend.RouteFeasibility: Python's `round(x, 2)` on the stored arrival SoC and energy is left out. The sort therefore orders by the exact value. Two trucks whose values round to the same figure keep truck-list order in the source but not necessarily in the model.
- Records.Set: keys that JavaScript enumerates first (integer-like strings) and keys inherited from `Object.prototype` are not modelled. Every key is an ordinary own property in insertion order.
- StableSort.InsertionSort: V8 sorts arrays of fewer than 64 elements by binary insertion, which places elements where this linear insertion does. Longer arrays are merged in runs, and that merging is not modelled. Any stable sort by a strict weak order gives the same output, but that is not proved here. Before inserting, V8 also reverses a leading run that is strictly descending under `compare(x, placed) < 0`; under a strict weak order that run is already in sorted order once reversed, so the output is the same, but this step is not modelled.
- TruckCard.NetChargeChip: when `charge_time_mins` is 0, React renders the bare `0` of `cond && 0`. The model shows no chip.
- The card's `isSelected` and best-match highlighting, and the leg table's per-row text, are styling only.
- App.RankedTiesKeepOrder / App.RankedWithoutEntries: for trucks without an entry, the input order is kept only by V8's insertion, which asks `compare(x, placed) < 0`; because the comparator returns 1 in both directions for them, ECMAScript leaves their order implementation-defined, and another engine may reorder them.

## Findings

| source | as written | input that shows it | evidently intended | confidence | as-written member | corrected member |
|---|---|---|---|---|---|---|
| backend/main.py:85 | the energy formula reads `route.load_lbs`, but `Route` in backend/models.py:38-47 declares no such field, so pydantic drops the `load_lbs` passed to the mock routes and the read raises `AttributeError` | any known route id (e.g. "R-01") with the non-empty mock truck list | the route's cargo load enters the energy formula and one result is returned per truck | medium (not executed; rests on pydantic's default of ignoring undeclared fields) | Backend.RouteFeasibilityAsWritten, Backend.AsWrittenFailsWhereCorrectedSucceeds | Backend.RouteFeasibility, Backend.OneResultPerTruck |
