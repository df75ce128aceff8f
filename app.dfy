/** The dashboard page: which route is selected, the per-truck feasibility
    map for it, the green/yellow/red summaries, the ranked truck list, and the
    best match. The fetching of trucks, routes and results is left out; they
    are the parameters here. */
module App {
  import opened Common
  import opened Types
  import opened Records
  import opened StableSort

  /** `!selectedRouteId` is true for null and for the empty string. */
  predicate IsSelected(sel: Option<string>) {
    sel.Some? && sel.value != ""
  }

  // ---------------------------------------------------------------------------
  // Route selection

  /** Clicking a route card: the selected route is deselected, any other is selected. */
  function Toggle(prev: Option<string>, routeId: string): Option<string> {
    if prev == Some(routeId) then None else Some(routeId)
  }

  /** A click deselects exactly when it hits the selected route; clicking the
      same route twice restores the earlier selection only when that was none
      or this route (from another route it ends with none). */
  lemma ToggleCases(prev: Option<string>, routeId: string)
    ensures Toggle(prev, routeId) == None <==> prev == Some(routeId)
    ensures Toggle(prev, routeId) != None ==> Toggle(prev, routeId) == Some(routeId)
    ensures Toggle(Toggle(prev, routeId), routeId) == prev <==> prev.None? || prev == Some(routeId)
    ensures Toggle(Toggle(prev, routeId), routeId) == if prev == Some(routeId) then prev else None
  {
  }

  /** The page's selection state. */
  class Dashboard {
    var selectedRouteId: Option<string>

    constructor ()
      ensures selectedRouteId == None
    {
      selectedRouteId := None;
    }

    /** `handleRouteClick`. */
    method HandleRouteClick(routeId: string)
      modifies this
      ensures selectedRouteId == Toggle(old(selectedRouteId), routeId)
      ensures selectedRouteId == None <==> old(selectedRouteId) == Some(routeId)
    {
      if selectedRouteId == Some(routeId) {
        selectedRouteId := None;
      } else {
        selectedRouteId := Some(routeId);
      }
    }
  }

  // ---------------------------------------------------------------------------
  // Feasibility map

  /** Index of the last result for `id`. */
  function LastIndexFor(rs: seq<FeasibilityResult>, id: string): (k: Option<nat>)
    ensures k.Some? ==> k.value < |rs| && rs[k.value].truckId == id
    ensures k.Some? ==> forall j :: k.value < j < |rs| ==> rs[j].truckId != id
    ensures k.None? <==> forall j :: 0 <= j < |rs| ==> rs[j].truckId != id
  {
    if rs == [] then None
    else if rs[|rs| - 1].truckId == id then Some(|rs| - 1)
    else LastIndexFor(rs[..|rs| - 1], id)
  }

  function LastFor(rs: seq<FeasibilityResult>, id: string): Option<FeasibilityResult> {
    match LastIndexFor(rs, id)
    case None => None
    case Some(k) => Some(rs[k])
  }

  predicate DistinctIds(rs: seq<FeasibilityResult>) {
    forall i, j :: 0 <= i < j < |rs| ==> rs[i].truckId != rs[j].truckId
  }

  /** `results.reduce((acc, curr) => { acc[curr.truck_id] = curr; ... }, {})`. */
  function IndexByTruck(rs: seq<FeasibilityResult>): Record<FeasibilityResult> {
    if rs == [] then []
    else Set(IndexByTruck(rs[..|rs| - 1]), rs[|rs| - 1].truckId, rs[|rs| - 1])
  }

  /** The feasibility map for the selection: empty without a selected route
      or without results for it. */
  function FeasibilityMapOf(sel: Option<string>, all: map<string, seq<FeasibilityResult>>): Record<FeasibilityResult> {
    if !IsSelected(sel) || sel.value !in all then [] else IndexByTruck(all[sel.value])
  }

  /** Each truck id maps to the last result carrying it, and to nothing when
      no result carries it; with distinct ids the map's values are the
      results in their order. */
  lemma {:induction false} IndexByTruckSpec(rs: seq<FeasibilityResult>)
    ensures DistinctKeys(IndexByTruck(rs))
    ensures forall id :: Get(IndexByTruck(rs), id) == LastFor(rs, id)
    ensures DistinctIds(rs) ==> Values(IndexByTruck(rs)) == rs
  {
    if rs != [] {
      var init := rs[..|rs| - 1];
      var last := rs[|rs| - 1];
      var m := IndexByTruck(init);
      IndexByTruckSpec(init);
      SetShape(m, last.truckId, last);
      forall id ensures Get(IndexByTruck(rs), id) == LastFor(rs, id) {
        GetSet(m, last.truckId, last, id);
      }
      if DistinctIds(rs) {
        assert Get(m, last.truckId).None?;
        ValuesAppend(m, Entry(last.truckId, last));
        assert rs == init + [last];
      }
    }
  }

  /** `feasibilityMap`: builds the map by assigning each result in turn. */
  method BuildFeasibilityMap(sel: Option<string>, all: map<string, seq<FeasibilityResult>>)
    returns (m: Record<FeasibilityResult>)
    ensures m == FeasibilityMapOf(sel, all)
  {
    m := [];
    if !IsSelected(sel) || sel.value !in all {
      return;
    }
    var rs := all[sel.value];
    for i := 0 to |rs|
      invariant m == IndexByTruck(rs[..i])
    {
      assert rs[..i + 1][..i] == rs[..i];
      m := Set(m, rs[i].truckId, rs[i]);
    }
    assert rs[..|rs|] == rs;
  }

  /** The map the cards read: the last result per truck of the selected route. */
  lemma FeasibilityMapSpec(sel: Option<string>, all: map<string, seq<FeasibilityResult>>, id: string)
    ensures !IsSelected(sel) || sel.value !in all ==> FeasibilityMapOf(sel, all) == []
    ensures IsSelected(sel) && sel.value in all ==>
      Get(FeasibilityMapOf(sel, all), id) == LastFor(all[sel.value], id)
  {
    if IsSelected(sel) && sel.value in all {
      IndexByTruckSpec(all[sel.value]);
    }
  }

  // ---------------------------------------------------------------------------
  // Summaries

  function HasStatus(st: FeasibilityStatus): FeasibilityResult -> bool {
    (f: FeasibilityResult) => f.status == st
  }

  const Unrecognized: FeasibilityResult -> bool := (f: FeasibilityResult) => f.status.UnrecognizedStatus?

  /** The route card's tally: three `filter(...).length` counts. */
  function FilterTally(rs: seq<FeasibilityResult>): Summary {
    Summary(Count(rs, HasStatus(Green)), Count(rs, HasStatus(Yellow)), Count(rs, HasStatus(Red)))
  }

  /** A summary exists only for a non-empty list of results. */
  function SummaryOf(rs: seq<FeasibilityResult>): Option<Summary> {
    if |rs| == 0 then None else Some(FilterTally(rs))
  }

  /** The per-route summary of the routes column (`allRouteFeasibility[id] || []`). */
  function RouteSummary(all: map<string, seq<FeasibilityResult>>, routeId: string): Option<Summary> {
    SummaryOf(if routeId in all then all[routeId] else [])
  }

  /** The `forEach` tally with its if/else-if chain; it agrees with the
      filter-based tally. */
  method TallyStatuses(results: seq<FeasibilityResult>) returns (s: Summary)
    ensures s == FilterTally(results)
  {
    var green, yellow, red := 0, 0, 0;
    for i := 0 to |results|
      invariant green == Count(results[..i], HasStatus(Green))
      invariant yellow == Count(results[..i], HasStatus(Yellow))
      invariant red == Count(results[..i], HasStatus(Red))
    {
      CountExtend(results, i, HasStatus(Green));
      CountExtend(results, i, HasStatus(Yellow));
      CountExtend(results, i, HasStatus(Red));
      if results[i].status == Green {
        green := green + 1;
      } else if results[i].status == Yellow {
        yellow := yellow + 1;
      } else if results[i].status == Red {
        red := red + 1;
      }
    }
    assert results[..|results|] == results;
    s := Summary(green, yellow, red);
  }

  /** `feasibilitySummary`: none without a selected route or with an empty map. */
  method FeasibilitySummary(sel: Option<string>, fmap: Record<FeasibilityResult>) returns (s: Option<Summary>)
    ensures s.None? <==> !IsSelected(sel) || |fmap| == 0
    ensures s.Some? ==> s == SummaryOf(Values(fmap))
  {
    if !IsSelected(sel) {
      return None;
    }
    var results := Values(fmap);
    if |results| == 0 {
      return None;
    }
    var tally := TallyStatuses(results);
    s := Some(tally);
  }

  /** Every result lands in at most one bucket and unrecognised statuses in
      none: the buckets plus the unrecognised results make up the list. */
  lemma {:induction false} TallyPartition(rs: seq<FeasibilityResult>)
    ensures FilterTally(rs).green + FilterTally(rs).yellow + FilterTally(rs).red
            + Count(rs, Unrecognized) == |rs|
    ensures FilterTally(rs).green + FilterTally(rs).yellow + FilterTally(rs).red <= |rs|
  {
    if rs != [] {
      TallyPartition(rs[..|rs| - 1]);
    }
  }

  /** With one result per truck, the selected route's summary (over the map's
      values) equals that route's card summary (over the raw results). */
  lemma SummariesAgree(sel: Option<string>, all: map<string, seq<FeasibilityResult>>)
    requires IsSelected(sel) && sel.value in all && DistinctIds(all[sel.value])
    ensures SummaryOf(Values(FeasibilityMapOf(sel, all))) == RouteSummary(all, sel.value)
  {
    IndexByTruckSpec(all[sel.value]);
  }

  // ---------------------------------------------------------------------------
  // Ranking

  /** The comparator `sortedTrucks` passes to `Array.prototype.sort`. */
  function Compare(a: Truck, b: Truck, fmap: Record<FeasibilityResult>): real {
    var fa := Get(fmap, a.id);
    var fb := Get(fmap, b.id);
    if fa.None? then 1.0
    else if fb.None? then -1.0
    else if fa.value.notAvailable != fb.value.notAvailable then
      (if fa.value.notAvailable then 1.0 else -1.0)
    else if IsFirst(fa.value) != IsFirst(fb.value) then
      (if IsFirst(fa.value) then -1.0 else 1.0)
    else if OrZero(fa.value.chargeTimeMins) != OrZero(fb.value.chargeTimeMins) then
      (OrZero(fa.value.chargeTimeMins) - OrZero(fb.value.chargeTimeMins)) as real
    else fb.value.arrivalSoc - fa.value.arrivalSoc
  }

  /** Green and needing no charge: such trucks go first. */
  predicate IsFirst(f: FeasibilityResult) {
    f.status == Green && f.noChargeNeeded
  }

  /** What the comparator looks at, as one key: a missing entry, then
      `not_available`, then "not first", then the charge time (null as 0),
      then the arrival SoC (larger first). */
  datatype RankKey = RankKey(unranked: bool, unavailable: bool, notFirst: bool, chargeMins: int, arrivalSoc: real)

  function KeyOf(t: Truck, fmap: Record<FeasibilityResult>): RankKey {
    match Get(fmap, t.id)
    case None => RankKey(true, false, false, 0, 0.0)
    case Some(f) => RankKey(false, f.notAvailable, !IsFirst(f), OrZero(f.chargeTimeMins), f.arrivalSoc)
  }

  /** The lexicographic order on keys: false before true, fewer charge
      minutes first, higher arrival SoC first. */
  predicate KeyLess(a: RankKey, b: RankKey) {
    if a.unranked != b.unranked then !a.unranked
    else if a.unavailable != b.unavailable then !a.unavailable
    else if a.notFirst != b.notFirst then !a.notFirst
    else if a.chargeMins != b.chargeMins then a.chargeMins < b.chargeMins
    else a.arrivalSoc > b.arrivalSoc
  }

  /** The question the sort asks: does `x` go strictly before `y`? */
  function RankOrder(fmap: Record<FeasibilityResult>): (Truck, Truck) -> bool {
    (x: Truck, y: Truck) => Compare(x, y, fmap) < 0.0
  }

  /** `Compare(a, b) < 0` is exactly "a's key comes first", both for trucks
      with entries and without; with at most one truck unranked the
      comparator is antisymmetric and returns 0 only for equal keys. */
  lemma CompareMatchesKeys(a: Truck, b: Truck, fmap: Record<FeasibilityResult>)
    ensures Compare(a, b, fmap) < 0.0 <==> KeyLess(KeyOf(a, fmap), KeyOf(b, fmap))
    ensures !(KeyOf(a, fmap).unranked && KeyOf(b, fmap).unranked) ==>
      (Compare(a, b, fmap) > 0.0 <==> Compare(b, a, fmap) < 0.0)
    ensures !(KeyOf(a, fmap).unranked && KeyOf(b, fmap).unranked) ==>
      (Compare(a, b, fmap) == 0.0 <==> KeyOf(a, fmap) == KeyOf(b, fmap))
  {
  }

  /** The comparator is not antisymmetric: two trucks without entries each
      compare greater than the other. */
  lemma CompareUnrankedAnomaly(a: Truck, b: Truck, fmap: Record<FeasibilityResult>)
    requires Get(fmap, a.id).None? && Get(fmap, b.id).None?
    ensures Compare(a, b, fmap) == 1.0 && Compare(b, a, fmap) == 1.0
  {
  }

  lemma KeyLessTotalPreorder(a: RankKey, b: RankKey, c: RankKey)
    ensures !KeyLess(a, a)
    ensures KeyLess(a, b) && KeyLess(b, c) ==> KeyLess(a, c)
    ensures !KeyLess(a, b) && !KeyLess(b, c) ==> !KeyLess(a, c)
  {
  }

  lemma RankOrderIsStrictWeak(fmap: Record<FeasibilityResult>)
    ensures StrictWeakOrder(RankOrder(fmap))
  {
    var lt := RankOrder(fmap);
    forall x, y, z
      ensures !lt(x, x)
      ensures lt(x, y) && lt(y, z) ==> lt(x, z)
      ensures !lt(x, y) && !lt(y, z) ==> !lt(x, z)
    {
      CompareMatchesKeys(x, x, fmap);
      CompareMatchesKeys(x, y, fmap);
      CompareMatchesKeys(y, z, fmap);
      CompareMatchesKeys(x, z, fmap);
      KeyLessTotalPreorder(KeyOf(x, fmap), KeyOf(y, fmap), KeyOf(z, fmap));
    }
  }

  /** The ranked list: a stable sort of the trucks by the comparator. */
  function Ranked(trucks: seq<Truck>, fmap: Record<FeasibilityResult>): (r: seq<Truck>)
    ensures |r| == |trucks| && multiset(r) == multiset(trucks)
  {
    SortPermutes(trucks, RankOrder(fmap));
    Sort(trucks, RankOrder(fmap))
  }

  /** `sortedTrucks`: the input itself without a selected route, otherwise a
      copy sorted in place. */
  method SortedTrucks(trucks: seq<Truck>, sel: Option<string>, fmap: Record<FeasibilityResult>)
    returns (r: seq<Truck>)
    ensures r == if IsSelected(sel) then Ranked(trucks, fmap) else trucks
  {
    if !IsSelected(sel) {
      return trucks;
    }
    var a := new Truck[|trucks|](i requires 0 <= i < |trucks| => trucks[i]);
    assert a[..] == trucks;
    InsertionSort(a, RankOrder(fmap));
    r := a[..];
  }

  /** The ranking is in key order: no truck is placed after one whose key
      comes later. */
  lemma RankedOrder(trucks: seq<Truck>, fmap: Record<FeasibilityResult>)
    ensures forall i, j :: 0 <= i < j < |trucks| ==>
      !KeyLess(KeyOf(Ranked(trucks, fmap)[j], fmap), KeyOf(Ranked(trucks, fmap)[i], fmap))
  {
    var r := Ranked(trucks, fmap);
    RankOrderIsStrictWeak(fmap);
    SortSorted(trucks, RankOrder(fmap));
    forall i, j | 0 <= i < j < |trucks|
      ensures !KeyLess(KeyOf(r[j], fmap), KeyOf(r[i], fmap))
    {
      CompareMatchesKeys(r[j], r[i], fmap);
    }
  }

  /** Trucks without an entry come after all trucks with one, and among
      trucks with entries every `not_available` one comes after every
      available one. */
  lemma UnrankedAndUnavailableLast(trucks: seq<Truck>, fmap: Record<FeasibilityResult>, i: nat, j: nat)
    requires i < j < |trucks|
    ensures Get(fmap, Ranked(trucks, fmap)[i].id).None? ==> Get(fmap, Ranked(trucks, fmap)[j].id).None?
    ensures Get(fmap, Ranked(trucks, fmap)[i].id).Some? && Get(fmap, Ranked(trucks, fmap)[j].id).Some?
      && Get(fmap, Ranked(trucks, fmap)[i].id).value.notAvailable
      ==> Get(fmap, Ranked(trucks, fmap)[j].id).value.notAvailable
  {
    RankedOrder(trucks, fmap);
  }

  /** Among trucks with entries and equal `not_available`, green trucks that
      need no charge come first, then fewer charge minutes, then higher
      arrival SoC. */
  lemma RankedWithinAvailability(trucks: seq<Truck>, fmap: Record<FeasibilityResult>, i: nat, j: nat)
    requires i < j < |trucks|
    requires Get(fmap, Ranked(trucks, fmap)[i].id).Some? && Get(fmap, Ranked(trucks, fmap)[j].id).Some?
    requires Get(fmap, Ranked(trucks, fmap)[i].id).value.notAvailable
          == Get(fmap, Ranked(trucks, fmap)[j].id).value.notAvailable
    ensures IsFirst(Get(fmap, Ranked(trucks, fmap)[j].id).value) ==> IsFirst(Get(fmap, Ranked(trucks, fmap)[i].id).value)
    ensures IsFirst(Get(fmap, Ranked(trucks, fmap)[i].id).value) == IsFirst(Get(fmap, Ranked(trucks, fmap)[j].id).value)
      ==> (OrZero(Get(fmap, Ranked(trucks, fmap)[i].id).value.chargeTimeMins)
           <= OrZero(Get(fmap, Ranked(trucks, fmap)[j].id).value.chargeTimeMins))
    ensures IsFirst(Get(fmap, Ranked(trucks, fmap)[i].id).value) == IsFirst(Get(fmap, Ranked(trucks, fmap)[j].id).value)
      && OrZero(Get(fmap, Ranked(trucks, fmap)[i].id).value.chargeTimeMins)
       == OrZero(Get(fmap, Ranked(trucks, fmap)[j].id).value.chargeTimeMins)
      ==> Get(fmap, Ranked(trucks, fmap)[i].id).value.arrivalSoc >= Get(fmap, Ranked(trucks, fmap)[j].id).value.arrivalSoc
  {
    RankedOrder(trucks, fmap);
  }

  /** Trucks the comparator cannot tell apart (equal on all four keys, or
      both without an entry) keep their input order. */
  lemma RankedTiesKeepOrder(trucks: seq<Truck>, fmap: Record<FeasibilityResult>, y: Truck)
    ensures Ties(Ranked(trucks, fmap), y, RankOrder(fmap)) == Ties(trucks, y, RankOrder(fmap))
    ensures forall x :: TiedWith(y, RankOrder(fmap))(x) <==> KeyOf(x, fmap) == KeyOf(y, fmap)
  {
    RankOrderIsStrictWeak(fmap);
    SortStable(trucks, y, RankOrder(fmap));
    forall x ensures TiedWith(y, RankOrder(fmap))(x) <==> KeyOf(x, fmap) == KeyOf(y, fmap) {
      CompareMatchesKeys(x, y, fmap);
      CompareMatchesKeys(y, x, fmap);
    }
  }

  /** Ranking the ranked list again changes nothing. */
  lemma RankedIdempotent(trucks: seq<Truck>, fmap: Record<FeasibilityResult>)
    ensures Ranked(Ranked(trucks, fmap), fmap) == Ranked(trucks, fmap)
  {
    RankOrderIsStrictWeak(fmap);
    SortIdempotent(trucks, RankOrder(fmap));
  }

  /** With a selected route that has no results, the map is empty and the
      list keeps its input order. */
  lemma RankedWithoutEntries(trucks: seq<Truck>)
    ensures Ranked(trucks, []) == trucks
  {
    SortIdentity(trucks, RankOrder([]));
  }

  /** Scenario: a green truck needing no charge (charge time null) ranks
      before a green truck needing 20 minutes of charge. */
  lemma NoChargeRanksFirst(a: Truck, b: Truck, fmap: Record<FeasibilityResult>)
    requires Get(fmap, a.id).Some? && Get(fmap, b.id).Some?
    requires !Get(fmap, a.id).value.notAvailable && !Get(fmap, b.id).value.notAvailable
    requires Get(fmap, a.id).value.status == Green && Get(fmap, a.id).value.noChargeNeeded
    requires Get(fmap, a.id).value.chargeTimeMins.None?
    requires Get(fmap, b.id).value.status == Green && !Get(fmap, b.id).value.noChargeNeeded
    requires Get(fmap, b.id).value.chargeTimeMins == Some(20)
    ensures RankOrder(fmap)(a, b) && !RankOrder(fmap)(b, a)
  {
  }

  /** Scenario: two green trucks both needing 20 minutes of charge; the one
      arriving with 60% ranks before the one arriving with 40%. */
  lemma HigherArrivalRanksFirst(a: Truck, b: Truck, fmap: Record<FeasibilityResult>)
    requires Get(fmap, a.id).Some? && Get(fmap, b.id).Some?
    requires !Get(fmap, a.id).value.notAvailable && !Get(fmap, b.id).value.notAvailable
    requires Get(fmap, a.id).value.status == Green && !Get(fmap, a.id).value.noChargeNeeded
    requires Get(fmap, b.id).value.status == Green && !Get(fmap, b.id).value.noChargeNeeded
    requires Get(fmap, a.id).value.chargeTimeMins == Some(20) && Get(fmap, b.id).value.chargeTimeMins == Some(20)
    requires Get(fmap, a.id).value.arrivalSoc == 60.0 && Get(fmap, b.id).value.arrivalSoc == 40.0
    ensures RankOrder(fmap)(a, b) && !RankOrder(fmap)(b, a)
  {
  }

  // ---------------------------------------------------------------------------
  // Best match

  /** Green for the selected route, and ready or charging. */
  predicate Eligible(t: Truck, fmap: Record<FeasibilityResult>) {
    var f := Get(fmap, t.id);
    f.Some? && f.value.status == Green && (t.status == Ready || t.status == Charging)
  }

  function EligibleIn(fmap: Record<FeasibilityResult>): Truck -> bool {
    (t: Truck) => Eligible(t, fmap)
  }

  /** `bestMatchTruckId`: the first eligible truck of the ranked list; `|| null`
      also turns an empty id into none. */
  function BestMatch(sel: Option<string>, ranked: seq<Truck>, fmap: Record<FeasibilityResult>): (b: Option<string>)
    ensures !IsSelected(sel) ==> b.None?
    ensures b.Some? ==> (b.value != "" &&
      exists k :: 0 <= k < |ranked| && ranked[k].id == b.value && Eligible(ranked[k], fmap)
        && forall j :: 0 <= j < k ==> !Eligible(ranked[j], fmap))
    ensures (forall k :: 0 <= k < |ranked| ==> !Eligible(ranked[k], fmap)) ==> b.None?
    ensures IsSelected(sel) ==>
      forall k :: (0 <= k < |ranked| && Eligible(ranked[k], fmap) &&
                   forall j :: 0 <= j < k ==> !Eligible(ranked[j], fmap))
        ==> b == (if ranked[k].id == "" then None else Some(ranked[k].id))
  {
    if !IsSelected(sel) then None
    else match FindFirst(ranked, EligibleIn(fmap))
      case None => None
      case Some(k) => if ranked[k].id == "" then None else Some(ranked[k].id)
  }
}
