/** The route card: the priority label, the stop and charger counters, and
    whether the fleet-compatibility row is shown. Layout and number formatting
    are left out. */
module RouteCard {
  import opened Common
  import opened Types

  datatype PriorityLabel = UrgentLabel | StandardLabel

  /** Only the exact string "urgent" is urgent; every other priority,
      unknown strings included, is shown as standard. */
  function PriorityLabelOf(r: Route): (l: PriorityLabel)
    ensures l == UrgentLabel <==> r.priority == "urgent"
    ensures l == StandardLabel <==> r.priority != "urgent"
  {
    if r.priority == "urgent" then UrgentLabel else StandardLabel
  }

  /** `route.stops?.length || 0`. */
  function CargoStops(r: Route): nat {
    match r.stops
    case None => 0
    case Some(stops) => |stops|
  }

  const HasCharger: Stop -> bool := (s: Stop) => s.hasCharger

  /** `route.stops?.filter(s => s.has_charger).length || 0`: at most the
      number of stops, all of them exactly when every stop has a charger,
      none exactly when no stop has one. */
  function ChargerStops(r: Route): (n: nat)
    ensures n <= CargoStops(r)
    ensures r.stops.None? ==> n == 0
    ensures r.stops.Some? ==>
      (n == 0 <==> forall i :: 0 <= i < |r.stops.value| ==> !r.stops.value[i].hasCharger)
    ensures r.stops.Some? ==>
      (n == CargoStops(r) <==> forall i :: 0 <= i < |r.stops.value| ==> r.stops.value[i].hasCharger)
  {
    match r.stops
    case None => 0
    case Some(stops) => Count(stops, HasCharger)
  }

  /** `route.charging_stations?.length || 0`. */
  function DedicatedStations(r: Route): nat {
    match r.chargingStations
    case None => 0
    case Some(stations) => |stations|
  }

  /** Dedicated stations plus stops that have a charger. */
  function TotalChargers(r: Route): (n: nat)
    ensures DedicatedStations(r) <= n <= DedicatedStations(r) + CargoStops(r)
    ensures ChargerStops(r) <= n
    ensures n == DedicatedStations(r) <==> ChargerStops(r) == 0
  {
    DedicatedStations(r) + ChargerStops(r)
  }

  /** A missing list counts like an empty one (the back end's default), so
      a route with neither list shows no stops and no chargers. */
  lemma MissingListsCountAsEmpty(r: Route)
    ensures CargoStops(r.(stops := None)) == CargoStops(r.(stops := Some([]))) == 0
    ensures ChargerStops(r.(stops := None)) == ChargerStops(r.(stops := Some([]))) == 0
    ensures DedicatedStations(r.(chargingStations := None))
         == DedicatedStations(r.(chargingStations := Some([]))) == 0
    ensures TotalChargers(r.(stops := None, chargingStations := None)) == 0
  {
  }

  /** Adding a stop with a charger raises both the stop count and the
      charger total by one; a stop without one raises only the stop count. */
  lemma AddStop(r: Route, s: Stop)
    requires r.stops.Some?
    ensures CargoStops(r.(stops := Some(r.stops.value + [s]))) == CargoStops(r) + 1
    ensures TotalChargers(r.(stops := Some(r.stops.value + [s])))
         == TotalChargers(r) + (if s.hasCharger then 1 else 0)
  {
  }

  /** The compatibility row (green/yellow/red counts) is shown exactly when
      there is a summary. */
  function CompatibilityRow(summary: Option<Summary>): (row: Option<(nat, nat, nat)>)
    ensures row.Some? <==> summary.Some?
    ensures row.Some? ==> row.value == (summary.value.green, summary.value.yellow, summary.value.red)
  {
    match summary
    case None => None
    case Some(s) => Some((s.green, s.yellow, s.red))
  }
}
