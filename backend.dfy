/** The back end's `get_route_feasibility` handler: find the route, compute
    one result per truck from the energy and arrival-SoC formula, classify it
    by thresholds, and sort the results by arrival SoC, largest first.

    Arithmetic is exact (`real`); the `round(..., 2)` applied to the stored
    values is left out. The truck and route lists are parameters, and so is
    the route's cargo load (see `RouteFeasibilityAsWritten`). */
module Backend {
  import opened Common
  import opened Types
  import opened StableSort
  import opened Records
  import opened App
  import opened TruckCard

  /** Why the handler returns no list: an unknown route id (HTTP 404), a
      zero battery capacity (Python's `ZeroDivisionError`), or the route
      model's missing `load_lbs` attribute (`AttributeError`). */
  datatype FeasibilityError = RouteNotFound | DivisionByZero(truckId: string) | MissingRouteLoad

  /** kWh per mile per pound of cargo. */
  const WeightFactor: real := 0.00004

  /** The route lookup: the first route with the id. */
  function FindRoute(routes: seq<Route>, routeId: string): (r: Option<Route>)
    ensures r.None? <==> forall i :: 0 <= i < |routes| ==> routes[i].id != routeId
    ensures r.Some? ==> r.value in routes && r.value.id == routeId
    ensures r.Some? ==> exists k :: 0 <= k < |routes| && routes[k] == r.value &&
                          forall j :: 0 <= j < k ==> routes[j].id != routeId
  {
    match FindFirst(routes, (r: Route) => r.id == routeId)
    case None => None
    case Some(k) => Some(routes[k])
  }

  /** Energy for the whole route at the given cargo load, in kWh. */
  function EnergyRequired(route: Route, load: real): real {
    (route.baseConsumption + WeightFactor * load) * route.distanceMiles * route.terrainMultiplier
  }

  /** The predicted state of charge at the destination, in percent. */
  function ArrivalSoc(t: Truck, energy: real): real
    requires t.capacityKwh != 0.0
  {
    ((t.soc / 100.0) * t.capacityKwh - energy) / t.capacityKwh * 100.0
  }

  /** The arrival SoC is the current SoC less the route's energy as a
      percentage of the battery. */
  lemma ArrivalIsSocLessShare(t: Truck, energy: real)
    requires t.capacityKwh != 0.0
    ensures ArrivalSoc(t, energy) == t.soc - energy / t.capacityKwh * 100.0
  {
  }

  /** On a route of positive length and terrain factor, a heavier load
      needs more energy and leaves a lower arrival SoC. */
  lemma HeavierLoadArrivesLower(t: Truck, route: Route, load1: real, load2: real)
    requires t.capacityKwh > 0.0
    requires route.distanceMiles > 0.0 && route.terrainMultiplier > 0.0
    requires load1 < load2
    ensures EnergyRequired(route, load1) < EnergyRequired(route, load2)
    ensures ArrivalSoc(t, EnergyRequired(route, load2)) < ArrivalSoc(t, EnergyRequired(route, load1))
  {
  }

  /** The status rules, decided on the unrounded arrival SoC. */
  function Classify(arrival: real): (st: FeasibilityStatus)
    ensures st == Green <==> arrival >= 15.0
    ensures st == Yellow <==> 0.0 <= arrival < 15.0
    ensures st == Red <==> arrival < 0.0
    ensures !st.UnrecognizedStatus?
  {
    if arrival >= 15.0 then Green
    else if arrival >= 0.0 then Yellow
    else Red
  }

  /** The result appended for one truck: the four explicit fields, every
      other field at its default. */
  function ResultFor(t: Truck, route: Route, load: real): (f: FeasibilityResult)
    requires t.capacityKwh != 0.0
    ensures f.truckId == t.id
    ensures f.arrivalSoc == ArrivalSoc(t, EnergyRequired(route, load))
    ensures f.energyRequiredKwh == EnergyRequired(route, load)
    ensures f.status == Classify(f.arrivalSoc)
    ensures f.noChargeNeeded && !f.notAvailable && !f.feasibleAfterPrecharge
    ensures f.chargeTimeMins.None? && f.stopsRequired == 0 && f.legDetails == []
    ensures f.prechargeMins.None? && f.prechargeKwh.None?
    ensures f.energyCostEstimate.None? && f.estimatedTripTimeMins.None?
  {
    var energy := EnergyRequired(route, load);
    var arrival := ArrivalSoc(t, energy);
    BackendDefaults(t.id, Classify(arrival), arrival, energy)
  }

  predicate NonZeroCapacities(trucks: seq<Truck>) {
    forall i :: 0 <= i < |trucks| ==> trucks[i].capacityKwh != 0.0
  }

  /** The results in truck-list order, before the sort. */
  function Unsorted(trucks: seq<Truck>, route: Route, load: real): (rs: seq<FeasibilityResult>)
    requires NonZeroCapacities(trucks)
    ensures |rs| == |trucks|
    ensures forall i :: 0 <= i < |trucks| ==> rs[i] == ResultFor(trucks[i], route, load)
  {
    if trucks == [] then []
    else Unsorted(trucks[..|trucks| - 1], route, load) + [ResultFor(trucks[|trucks| - 1], route, load)]
  }

  /** `results.sort(key=arrival_soc, reverse=True)`: Python's stable sort
      with reversal keeps equal keys in their original order, so it is the
      stable sort by "larger arrival SoC goes first". */
  const ByArrivalDesc: (FeasibilityResult, FeasibilityResult) -> bool :=
    (x: FeasibilityResult, y: FeasibilityResult) => x.arrivalSoc > y.arrivalSoc

  const ZeroCapacity: Truck -> bool := (t: Truck) => t.capacityKwh == 0.0

  /** What the handler returns for a route whose cargo load is `load`. */
  function Feasibility(routes: seq<Route>, trucks: seq<Truck>, routeId: string, load: real)
    : Result<seq<FeasibilityResult>, FeasibilityError>
  {
    match FindRoute(routes, routeId)
    case None => Failure(RouteNotFound)
    case Some(route) =>
      match FindFirst(trucks, ZeroCapacity)
      case Some(k) => Failure(DivisionByZero(trucks[k].id))
      case None => Success(Sort(Unsorted(trucks, route, load), ByArrivalDesc))
  }

  /** `get_route_feasibility`: appends one result per truck in a loop, then
      sorts the list in place. */
  method RouteFeasibility(routes: seq<Route>, trucks: seq<Truck>, routeId: string, load: real)
    returns (r: Result<seq<FeasibilityResult>, FeasibilityError>)
    ensures r == Feasibility(routes, trucks, routeId, load)
  {
    var found := FindRoute(routes, routeId);
    if found.None? {
      return Failure(RouteNotFound);
    }
    var route := found.value;
    var results: seq<FeasibilityResult> := [];
    for i := 0 to |trucks|
      invariant NonZeroCapacities(trucks[..i])
      invariant results == Unsorted(trucks[..i], route, load)
    {
      var t := trucks[i];
      var energy := EnergyRequired(route, load);
      if t.capacityKwh == 0.0 {
        FirstZeroCapacity(trucks, i);
        return Failure(DivisionByZero(t.id));
      }
      var arrival := ArrivalSoc(t, energy);
      var status;
      if arrival >= 15.0 {
        status := Green;
      } else if arrival >= 0.0 {
        status := Yellow;
      } else {
        status := Red;
      }
      assert status == Classify(arrival);
      UnsortedExtend(trucks, i, route, load);
      results := results + [BackendDefaults(t.id, status, arrival, energy)];
    }
    assert trucks[..|trucks|] == trucks;
    NoZeroCapacity(trucks);
    var a := new FeasibilityResult[|results|](i requires 0 <= i < |results| => results[i]);
    assert a[..] == results;
    InsertionSort(a, ByArrivalDesc);
    r := Success(a[..]);
  }

  lemma FirstZeroCapacity(trucks: seq<Truck>, i: nat)
    requires i < |trucks| && trucks[i].capacityKwh == 0.0
    requires NonZeroCapacities(trucks[..i])
    ensures FindFirst(trucks, ZeroCapacity) == Some(i)
  {
  }

  lemma NoZeroCapacity(trucks: seq<Truck>)
    requires NonZeroCapacities(trucks)
    ensures FindFirst(trucks, ZeroCapacity).None?
  {
  }

  lemma UnsortedExtend(trucks: seq<Truck>, i: nat, route: Route, load: real)
    requires i < |trucks| && trucks[i].capacityKwh != 0.0
    requires NonZeroCapacities(trucks[..i])
    ensures NonZeroCapacities(trucks[..i + 1])
    ensures Unsorted(trucks[..i + 1], route, load) == Unsorted(trucks[..i], route, load) + [ResultFor(trucks[i], route, load)]
  {
  }

  lemma ByArrivalDescIsStrictWeak()
    ensures StrictWeakOrder(ByArrivalDesc)
  {
  }

  const TruckIdOf: Truck -> string := (t: Truck) => t.id

  const ResultIdOf: FeasibilityResult -> string := (f: FeasibilityResult) => f.truckId

  lemma {:induction false} UnsortedIds(trucks: seq<Truck>, route: Route, load: real)
    requires NonZeroCapacities(trucks)
    ensures Project(Unsorted(trucks, route, load), ResultIdOf) == Project(trucks, TruckIdOf)
  {
    if trucks != [] {
      var init := trucks[..|trucks| - 1];
      UnsortedIds(init, route, load);
      var u := Unsorted(trucks, route, load);
      assert u[..|u| - 1] == Unsorted(init, route, load);
    }
  }

  /** An unknown route id yields the 404 and nothing else; a zero capacity
      fails at the first such truck; otherwise there is exactly one result
      per truck, carrying that truck's id (as many times as the id occurs in
      the truck list), and each result is the one computed for its truck. */
  lemma OneResultPerTruck(routes: seq<Route>, trucks: seq<Truck>, routeId: string, load: real)
    ensures Feasibility(routes, trucks, routeId, load) == Failure(RouteNotFound)
        <==> forall i :: 0 <= i < |routes| ==> routes[i].id != routeId
    ensures FindRoute(routes, routeId).Some? && !NonZeroCapacities(trucks) ==>
      Feasibility(routes, trucks, routeId, load).Failure?
    ensures FindRoute(routes, routeId).Some? && NonZeroCapacities(trucks) ==>
      var rs := Feasibility(routes, trucks, routeId, load);
      && rs.Success?
      && |rs.value| == |trucks|
      && multiset(Project(rs.value, ResultIdOf)) == multiset(Project(trucks, TruckIdOf))
      && multiset(rs.value) == multiset(Unsorted(trucks, FindRoute(routes, routeId).value, load))
  {
    var found := FindRoute(routes, routeId);
    if found.Some? {
      if NonZeroCapacities(trucks) {
        NoZeroCapacity(trucks);
        var u := Unsorted(trucks, found.value, load);
        SortPermutes(u, ByArrivalDesc);
        SortProject(u, ByArrivalDesc, ResultIdOf);
        UnsortedIds(trucks, found.value, load);
      } else {
        var i :| 0 <= i < |trucks| && trucks[i].capacityKwh == 0.0;
        assert ZeroCapacity(trucks[i]);
      }
    }
  }

  /** The returned results are ordered by arrival SoC, largest first, and
      results with equal arrival SoC keep their truck-list order. */
  lemma ResultsSortedDescending(routes: seq<Route>, trucks: seq<Truck>, routeId: string, load: real, y: FeasibilityResult)
    requires Feasibility(routes, trucks, routeId, load).Success?
    ensures var rs := Feasibility(routes, trucks, routeId, load).value;
      forall i, j :: 0 <= i < j < |rs| ==> rs[i].arrivalSoc >= rs[j].arrivalSoc
    ensures Ties(Feasibility(routes, trucks, routeId, load).value, y, ByArrivalDesc)
         == Ties(Unsorted(trucks, FindRoute(routes, routeId).value, load), y, ByArrivalDesc)
  {
    var route := FindRoute(routes, routeId).value;
    var u := Unsorted(trucks, route, load);
    ByArrivalDescIsStrictWeak();
    SortSorted(u, ByArrivalDesc);
    SortStable(u, y, ByArrivalDesc);
  }

  /** The back end sets only four fields, so in the front end's ranking its
      results compare by "green first", then by arrival SoC, largest first:
      the availability, no-charge and charge-time keys are all equal. */
  lemma BackendResultsRankByGreenThenArrival(a: Truck, b: Truck, fmap: Record<FeasibilityResult>, route: Route, load: real, ta: Truck, tb: Truck)
    requires ta.capacityKwh != 0.0 && tb.capacityKwh != 0.0
    requires Get(fmap, a.id) == Some(ResultFor(ta, route, load))
    requires Get(fmap, b.id) == Some(ResultFor(tb, route, load))
    ensures RankOrder(fmap)(a, b) <==>
      var fa, fb := ResultFor(ta, route, load), ResultFor(tb, route, load);
      (fa.status == Green && fb.status != Green)
      || ((fa.status == Green) == (fb.status == Green) && fa.arrivalSoc > fb.arrivalSoc)
  {
  }

  /** With every map entry from the back end, the ranking puts every green
      truck before every non-green one and otherwise agrees with the back
      end's order. */
  lemma GreenFirstForBackendResults(a: Truck, b: Truck, fmap: Record<FeasibilityResult>, route: Route, load: real, ta: Truck, tb: Truck)
    requires ta.capacityKwh != 0.0 && tb.capacityKwh != 0.0
    requires Get(fmap, a.id) == Some(ResultFor(ta, route, load))
    requires Get(fmap, b.id) == Some(ResultFor(tb, route, load))
    ensures ResultFor(ta, route, load).arrivalSoc > ResultFor(tb, route, load).arrivalSoc
        ==> RankOrder(fmap)(a, b)
    ensures RankOrder(fmap)(a, b) ==> !ByArrivalDesc(ResultFor(tb, route, load), ResultFor(ta, route, load))
  {
    BackendResultsRankByGreenThenArrival(a, b, fmap, route, load, ta, tb);
  }

  /** A back-end result carries no pre-charge, so on the truck card its
      wait is the truck's charging ETA alone: a green result never shows the
      pre-charge badge, shows "Ready" with no ETA and "Wait for Charge" with
      a positive one. */
  lemma BackendResultBadge(t: Truck, tr: Truck, route: Route, load: real, baseMs: int)
    requires tr.capacityKwh != 0.0
    ensures TotalWaitMins(t, Some(ResultFor(tr, route, load))) == OrZero(t.chargeEtaMins)
    ensures !StatusBadge(t, Some(ResultFor(tr, route, load)), baseMs).PrechargeBadge?
    ensures ResultFor(tr, route, load).status == Green && OrZero(t.chargeEtaMins) == 0
      ==> StatusBadge(t, Some(ResultFor(tr, route, load)), baseMs) == ReadyBadge
    ensures ResultFor(tr, route, load).status == Green && OrZero(t.chargeEtaMins) > 0
      ==> StatusBadge(t, Some(ResultFor(tr, route, load)), baseMs).WaitForChargeBadge?
  {
  }

  // ---------------------------------------------------------------------------
  // The handler as written

  /** The handler as written reads `route.load_lbs`, but the back end's route
      model declares no such field: the `load_lbs` given to the mock routes'
      constructors is dropped, and the first read of it raises. Only an
      unknown route or an empty truck list avoid the read. */
  function RouteFeasibilityAsWritten(routes: seq<Route>, trucks: seq<Truck>, routeId: string)
    : (r: Result<seq<FeasibilityResult>, FeasibilityError>)
    ensures r.Success? <==> FindRoute(routes, routeId).Some? && trucks == []
  {
    match FindRoute(routes, routeId)
    case None => Failure(RouteNotFound)
    case Some(_) => if trucks == [] then Success([]) else Failure(MissingRouteLoad)
  }

  /** For any known route and any non-empty fleet of trucks with batteries,
      the handler as written fails, while the handler given the route's load
      returns one result per truck. */
  lemma AsWrittenFailsWhereCorrectedSucceeds(routes: seq<Route>, trucks: seq<Truck>, routeId: string, load: real)
    requires FindRoute(routes, routeId).Some?
    requires |trucks| > 0 && NonZeroCapacities(trucks)
    ensures RouteFeasibilityAsWritten(routes, trucks, routeId) == Failure(MissingRouteLoad)
    ensures Feasibility(routes, trucks, routeId, load).Success?
    ensures |Feasibility(routes, trucks, routeId, load).value| == |trucks|
  {
    OneResultPerTruck(routes, trucks, routeId, load);
  }
}
