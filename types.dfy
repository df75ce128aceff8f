/** The dashboard's data model, as the front end's type declarations and the
    back end's pydantic models describe it. Numbers that are floats in the
    source are `real`; minute counts and timestamps (milliseconds) are `int`;
    nullable numbers are `Option`. The open string enumerations become closed
    datatypes with one arm for every other string. */
module Types {
  import opened Common

  /** `Truck.status`: 'ready' | 'charging' | 'maintenance' | any other string. */
  datatype TruckStatus = Ready | Charging | Maintenance | OtherTruckStatus(text: string)

  /** `FeasibilityResult.status`: 'green' | 'yellow' | 'red' | any other string. */
  datatype FeasibilityStatus = Green | Yellow | Red | UnrecognizedStatus(text: string)

  function TruckStatusText(st: TruckStatus): string {
    match st
    case Ready => "ready"
    case Charging => "charging"
    case Maintenance => "maintenance"
    case OtherTruckStatus(s) => s
  }

  /** Reads the status string the back end sends; the string is kept exactly. */
  function ParseTruckStatus(s: string): (st: TruckStatus)
    ensures TruckStatusText(st) == s
    ensures st.OtherTruckStatus? <==> s !in {"ready", "charging", "maintenance"}
  {
    if s == "ready" then Ready
    else if s == "charging" then Charging
    else if s == "maintenance" then Maintenance
    else OtherTruckStatus(s)
  }

  /** A status value is canonical when its catch-all arm does not hold a known word. */
  predicate CanonicalTruckStatus(st: TruckStatus) {
    st.OtherTruckStatus? ==> st.text !in {"ready", "charging", "maintenance"}
  }

  lemma TruckStatusRoundTrip(st: TruckStatus)
    requires CanonicalTruckStatus(st)
    ensures ParseTruckStatus(TruckStatusText(st)) == st
  {
  }

  function FeasibilityStatusText(st: FeasibilityStatus): string {
    match st
    case Green => "green"
    case Yellow => "yellow"
    case Red => "red"
    case UnrecognizedStatus(s) => s
  }

  function ParseFeasibilityStatus(s: string): (st: FeasibilityStatus)
    ensures FeasibilityStatusText(st) == s
    ensures st.UnrecognizedStatus? <==> s !in {"green", "yellow", "red"}
  {
    if s == "green" then Green
    else if s == "yellow" then Yellow
    else if s == "red" then Red
    else UnrecognizedStatus(s)
  }

  predicate CanonicalFeasibilityStatus(st: FeasibilityStatus) {
    st.UnrecognizedStatus? ==> st.text !in {"green", "yellow", "red"}
  }

  lemma FeasibilityStatusRoundTrip(st: FeasibilityStatus)
    requires CanonicalFeasibilityStatus(st)
    ensures ParseFeasibilityStatus(FeasibilityStatusText(st)) == st
  {
  }

  datatype Truck = Truck(
    id: string,
    name: string,
    soc: real,                   // state of charge, percent
    soh: real,                   // state of health, percent
    capacityKwh: real,
    loadLbs: real,
    status: TruckStatus,
    chargeEtaMins: Option<int>,  // set only while charging
    rangeMiles: Option<real>)

  datatype Stop = Stop(
    mileMarker: real,
    unloadLbs: real,
    pickupLbs: real,
    hasCharger: bool,
    chargeRateKw: Option<real>)

  datatype ChargingStation = ChargingStation(mileMarker: real, chargeRateKw: real)

  /** A route. `stops` and `chargingStations` are optional because the route
      card reads them with optional chaining. */
  datatype Route = Route(
    id: string,
    name: string,
    distanceMiles: real,
    elevationGainFt: real,
    priority: string,
    terrainMultiplier: real,
    baseConsumption: real,       // kWh per mile
    stops: Option<seq<Stop>>,
    chargingStations: Option<seq<ChargingStation>>)

  datatype LegDetail = LegDetail(
    legNumber: int,
    distanceMiles: real,
    startSoc: real,
    endSoc: real,
    startLoadLbs: real,
    endLoadLbs: real,
    pickupLbs: real,
    chargeAddedKwh: real,
    chargeTimeMins: int,
    unloadLbs: real,
    usedCharger: bool)

  datatype FeasibilityResult = FeasibilityResult(
    truckId: string,
    status: FeasibilityStatus,
    arrivalSoc: real,
    energyRequiredKwh: real,
    chargeTimeMins: Option<int>,
    stopsRequired: int,
    noChargeNeeded: bool,
    notAvailable: bool,
    feasibleAfterPrecharge: bool,
    prechargeMins: Option<int>,
    prechargeKwh: Option<real>,
    energyCostEstimate: Option<real>,
    estimatedTripTimeMins: Option<int>,
    legDetails: seq<LegDetail>)

  /** Green/yellow/red tallies of a list of results. */
  datatype Summary = Summary(green: nat, yellow: nat, red: nat)

  /** The result the back end builds from its four explicit arguments: every
      other field takes the pydantic default (no charge time, zero stops,
      `no_charge_needed = True`, `not_available = False`, no legs), and the
      fields the back-end model does not declare arrive as absent, which the
      front end reads as false or null. */
  function BackendDefaults(truckId: string, status: FeasibilityStatus, arrivalSoc: real, energy: real): FeasibilityResult
  {
    FeasibilityResult(truckId, status, arrivalSoc, energy, None, 0, true, false, false,
                      None, None, None, None, [])
  }
}
