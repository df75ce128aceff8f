/** The rules of one truck card: the status badge with its first-match-wins
    precedence, the card border and arrival-SoC badge colours, the state of
    charge bar colour, the projected availability and transit times, the net
    charge time once charging overlaps loading, and which parts of the card
    are shown. `feasibility` is `None` when no route is selected or the route
    has no result for the truck. Timestamps are milliseconds; the clock
    (`baseTime`) is a parameter and the locale time strings are left out. */
module TruckCard {
  import opened Common
  import opened Types

  const MsPerMinute: int := 60000

  /** Minutes of dwell at a stop where cargo changes hands. */
  const DwellMins: int := 30

  // ---------------------------------------------------------------------------
  // Time projection

  /** `charge_eta_mins || 0` plus `feasibility?.precharge_mins || 0`. */
  function TotalWaitMins(t: Truck, f: Option<FeasibilityResult>): int {
    OrZero(t.chargeEtaMins) + (if f.Some? then OrZero(f.value.prechargeMins) else 0)
  }

  /** With no negative part, the wait covers each of its parts and is zero
      exactly when both are null or zero; a result without pre-charge minutes
      waits just as long as no result at all. */
  lemma TotalWaitParts(t: Truck, f: Option<FeasibilityResult>)
    requires OrZero(t.chargeEtaMins) >= 0
    requires f.Some? ==> OrZero(f.value.prechargeMins) >= 0
    ensures TotalWaitMins(t, f) >= OrZero(t.chargeEtaMins)
    ensures f.Some? ==> TotalWaitMins(t, f) >= OrZero(f.value.prechargeMins)
    ensures TotalWaitMins(t, f) == 0 <==>
      OrZero(t.chargeEtaMins) == 0 && (f.None? || OrZero(f.value.prechargeMins) == 0)
    ensures f.Some? && f.value.prechargeMins.None? ==> TotalWaitMins(t, f) == TotalWaitMins(t, None)
  {
  }

  /** The instant `mins` minutes after `baseMs`. */
  function ProjectMs(baseMs: int, mins: int): int {
    baseMs + mins * MsPerMinute
  }

  /** When the truck can leave: base time plus the total wait. */
  function AvailableAt(t: Truck, f: Option<FeasibilityResult>, baseMs: int): int {
    ProjectMs(baseMs, TotalWaitMins(t, f))
  }

  /** The transit chip: departure, arrival, and the trip as hours and minutes. */
  datatype Window = Window(startMs: int, endMs: int, trip: HoursMinutes)

  /** The transit chip is drawn among the details of a result that is not
      `not_available` and carries a trip time: it departs at the available
      time, arrives one trip later, and its "Xh Ym" reads the trip back. */
  function TransitWindow(t: Truck, f: FeasibilityResult, baseMs: int): (w: Option<Window>)
    ensures w.Some? <==> ShowsDetails(Some(f)) && f.estimatedTripTimeMins.Some?
    ensures w.Some? ==> w.value.startMs == AvailableAt(t, Some(f), baseMs)
    ensures w.Some? ==> w.value.endMs - w.value.startMs == f.estimatedTripTimeMins.value * MsPerMinute
    ensures w.Some? && f.estimatedTripTimeMins.value >= 0 ==>
      w.value.trip.hours * 60 + w.value.trip.minutes == f.estimatedTripTimeMins.value
      && 0 <= w.value.trip.minutes < 60
  {
    if f.notAvailable then None
    else match f.estimatedTripTimeMins
      case None => None
      case Some(trip) =>
        var start := ProjectMs(baseMs, OrZero(t.chargeEtaMins) + OrZero(f.prechargeMins));
        Some(Window(start, ProjectMs(start, trip), SplitMinutes(trip)))
  }

  /** Projecting twice is projecting once by the sum, and the offset can be
      read back from the projected instant. */
  lemma ProjectionAdds(baseMs: int, m1: int, m2: int)
    ensures ProjectMs(ProjectMs(baseMs, m1), m2) == ProjectMs(baseMs, m1 + m2)
    ensures (ProjectMs(baseMs, m1) - baseMs) / MsPerMinute == m1
  {
  }

  /** Hours and minutes as the card prints them: `Math.floor(n / 60)` and the
      JavaScript remainder `n % 60`, whose sign follows `n`. */
  datatype HoursMinutes = HoursMinutes(hours: int, minutes: int)

  function SplitMinutes(n: int): HoursMinutes {
    // Dafny's `/` by a positive divisor rounds down like Math.floor.
    HoursMinutes(n / 60, if n >= 0 then n % 60 else -((-n) % 60))
  }

  lemma SplitExact(n: int)
    requires n >= 0
    ensures SplitMinutes(n).hours * 60 + SplitMinutes(n).minutes == n
    ensures 0 <= SplitMinutes(n).minutes < 60
  {
  }

  // ---------------------------------------------------------------------------
  // Net charge time

  /** A leg's charging overlaps its dwell when it used a charger and cargo was
      unloaded or picked up there. */
  predicate Overlaps(leg: LegDetail) {
    leg.usedCharger && (leg.unloadLbs > 0.0 || leg.pickupLbs > 0.0)
  }

  /** Minutes of a leg's charging hidden in its dwell. */
  function LegOverlap(leg: LegDetail): int {
    if Overlaps(leg) then Min(DwellMins, leg.chargeTimeMins) else 0
  }

  /** `leg_details.reduce((acc, leg) => ..., acc)`. */
  function FoldOverlap(acc: int, legs: seq<LegDetail>): int
    decreases |legs|
  {
    if legs == [] then acc else FoldOverlap(acc + LegOverlap(legs[0]), legs[1..])
  }

  function OverlapMins(legs: seq<LegDetail>): int {
    FoldOverlap(0, legs)
  }

  /** `Math.max(0, (charge_time_mins || 0) - overlapMins)`. */
  function NetChargeMins(f: FeasibilityResult): (n: int)
    ensures n >= 0
    ensures n >= OrZero(f.chargeTimeMins) - OverlapMins(f.legDetails)
  {
    Max(0, OrZero(f.chargeTimeMins) - OverlapMins(f.legDetails))
  }

  /** The "+Xh Ym added" chip shows only when charge is needed and the charge
      time is neither null nor zero. */
  predicate ShowsNetCharge(f: FeasibilityResult) {
    !f.noChargeNeeded && f.chargeTimeMins.Some? && f.chargeTimeMins.value != 0
  }

  /** The chip's hours and minutes, drawn among a usable result's details. */
  function NetChargeChip(f: Option<FeasibilityResult>): Option<HoursMinutes> {
    if ShowsDetails(f) && ShowsNetCharge(f.value) then Some(SplitMinutes(NetChargeMins(f.value))) else None
  }

  predicate NonNegativeLegs(legs: seq<LegDetail>) {
    forall i :: 0 <= i < |legs| ==> legs[i].chargeTimeMins >= 0
  }

  function OverlappingLegs(legs: seq<LegDetail>): nat {
    Count(legs, (leg: LegDetail) => Overlaps(leg))
  }

  /** The fold's accumulator only shifts the result. */
  lemma {:induction false} FoldOverlapShift(acc: int, legs: seq<LegDetail>)
    ensures FoldOverlap(acc, legs) == acc + OverlapMins(legs)
    decreases |legs|
  {
    if legs != [] {
      FoldOverlapShift(acc + LegOverlap(legs[0]), legs[1..]);
      FoldOverlapShift(LegOverlap(legs[0]), legs[1..]);
    }
  }

  lemma {:induction false} OverlapSplit(legs: seq<LegDetail>)
    requires legs != []
    ensures OverlapMins(legs) == OverlapMins(legs[..|legs| - 1]) + LegOverlap(legs[|legs| - 1])
    decreases |legs|
  {
    FoldOverlapShift(LegOverlap(legs[0]), legs[1..]);
    if |legs| > 1 {
      OverlapSplit(legs[1..]);
      assert legs[1..][..|legs| - 2] == legs[..|legs| - 1][1..];
      FoldOverlapShift(LegOverlap(legs[0]), legs[..|legs| - 1][1..]);
    }
  }

  /** With leg charge times non-negative, the overlap is between zero and the
      dwell time of the overlapping legs, and zero when no leg overlaps. */
  lemma {:induction false} OverlapBounds(legs: seq<LegDetail>)
    requires NonNegativeLegs(legs)
    ensures 0 <= OverlapMins(legs) <= DwellMins * OverlappingLegs(legs)
    decreases |legs|
  {
    if legs != [] {
      var init := legs[..|legs| - 1];
      OverlapSplit(legs);
      OverlapBounds(init);
      assert OverlappingLegs(legs) == OverlappingLegs(init)
        + (if Overlaps(legs[|legs| - 1]) then 1 else 0);
    }
  }

  /** Without an overlapping leg nothing is subtracted, whatever the legs' charge times. */
  lemma {:induction false} NoOverlapNoDiscount(legs: seq<LegDetail>)
    requires forall i :: 0 <= i < |legs| ==> !Overlaps(legs[i])
    ensures OverlapMins(legs) == 0
    decreases |legs|
  {
    if legs != [] {
      OverlapSplit(legs);
      NoOverlapNoDiscount(legs[..|legs| - 1]);
    }
  }

  /** The net charge time is never negative; it is the charge time (floored
      at zero) when no leg overlaps; with non-negative leg times it never
      exceeds that, and it is zero when the charge time is null or zero. */
  lemma NetChargeBounds(f: FeasibilityResult)
    ensures NetChargeMins(f) >= 0
    ensures (forall i :: 0 <= i < |f.legDetails| ==> !Overlaps(f.legDetails[i]))
            ==> NetChargeMins(f) == Max(0, OrZero(f.chargeTimeMins))
    ensures NonNegativeLegs(f.legDetails) ==> NetChargeMins(f) <= Max(0, OrZero(f.chargeTimeMins))
    ensures NonNegativeLegs(f.legDetails) && OrZero(f.chargeTimeMins) == 0 ==> NetChargeMins(f) == 0
  {
    if forall i :: 0 <= i < |f.legDetails| ==> !Overlaps(f.legDetails[i]) {
      NoOverlapNoDiscount(f.legDetails);
    }
    if NonNegativeLegs(f.legDetails) {
      OverlapBounds(f.legDetails);
    }
  }

  /** Scenario: one leg charged 40 minutes at a charger where 500 lbs were
      unloaded; of a 50-minute charge time, 30 minutes hide in the dwell. */
  lemma OverlapScenario(f: FeasibilityResult, leg: LegDetail)
    requires leg.usedCharger && leg.chargeTimeMins == 40 && leg.unloadLbs == 500.0 && leg.pickupLbs == 0.0
    requires f.legDetails == [leg] && f.chargeTimeMins == Some(50)
    ensures OverlapMins(f.legDetails) == 30
    ensures NetChargeMins(f) == 20
  {
    assert LegOverlap(leg) == 30;
    assert FoldOverlap(0, [leg]) == FoldOverlap(30, []);
  }

  /** The "+Xh Ym added" chip appears exactly for a usable result that needs
      a non-zero charge time; it reads back the net minutes exactly, and with
      non-negative leg times it never shows more than the charge time, nor
      less when no leg overlaps. */
  lemma NetChargeSplit(f: Option<FeasibilityResult>)
    ensures NetChargeChip(f).Some? <==>
      f.Some? && !f.value.notAvailable && !f.value.noChargeNeeded && OrZero(f.value.chargeTimeMins) != 0
    ensures NetChargeChip(f).Some? ==>
      NetChargeChip(f).value.hours * 60 + NetChargeChip(f).value.minutes == NetChargeMins(f.value)
      && 0 <= NetChargeChip(f).value.minutes < 60
    ensures NetChargeChip(f).Some? && NonNegativeLegs(f.value.legDetails) ==>
      NetChargeChip(f).value.hours * 60 + NetChargeChip(f).value.minutes <= Max(0, f.value.chargeTimeMins.value)
    ensures NetChargeChip(f).Some? && (forall i :: 0 <= i < |f.value.legDetails| ==> !Overlaps(f.value.legDetails[i]))
      ==> NetChargeChip(f).value.hours * 60 + NetChargeChip(f).value.minutes == Max(0, f.value.chargeTimeMins.value)
  {
    if NetChargeChip(f).Some? {
      SplitExact(NetChargeMins(f.value));
      NetChargeBounds(f.value);
    }
  }

  // ---------------------------------------------------------------------------
  // Status badge

  /** The badge in the card's corner; the timed ones carry the wait in
      minutes and the projected instant. */
  datatype Badge =
    | PrechargeBadge(waitMins: int, atMs: int)     // amber "Pre-charge"
    | WaitForChargeBadge(waitMins: int, atMs: int) // amber "Wait for Charge"
    | DepotChargeBadge(waitMins: int, atMs: int)   // yellow "Needs ...m depot charge"
    | ReadyBadge                                   // green "Ready"
    | InfeasibleBadge                              // red "Infeasible"
    | ChargingFullBadge(waitMins: int, atMs: int)  // blue "Charging — Full in"
    | ChargingBadge(waitMins: int, atMs: int)      // yellow "Charging"
    | MaintenanceBadge                             // gray "Maintenance"
    | RawStatusBadge(text: string)                 // gray, the raw status

  /** `renderStatusBadge`: the first matching case wins. */
  function StatusBadge(t: Truck, f: Option<FeasibilityResult>, baseMs: int): Badge {
    var wait := TotalWaitMins(t, f);
    var at := ProjectMs(baseMs, wait);
    if f.Some? && f.value.feasibleAfterPrecharge then PrechargeBadge(wait, at)
    else if f.Some? && f.value.status == Green && wait > 0 then WaitForChargeBadge(wait, at)
    else if f.Some? && f.value.status == Yellow then DepotChargeBadge(wait, at)
    else if f.Some? && f.value.status == Green && wait == 0 then ReadyBadge
    else if f.Some? && f.value.status == Red then InfeasibleBadge
    else match t.status
      case Ready => ReadyBadge
      case Charging => if f.None? then ChargingFullBadge(wait, at) else ChargingBadge(wait, at)
      case Maintenance => MaintenanceBadge
      case OtherTruckStatus(s) => RawStatusBadge(s)
  }

  /** No feasibility case matched, so the badge falls back on the truck's own
      status: no result, or a result that is not pre-charge and is neither
      yellow, red, nor green with a non-negative wait. */
  predicate FallsBack(t: Truck, f: Option<FeasibilityResult>) {
    f.None? ||
    (!f.value.feasibleAfterPrecharge &&
     (f.value.status.UnrecognizedStatus? || (f.value.status == Green && TotalWaitMins(t, f) < 0)))
  }

  /** Each badge, characterised by the inputs that produce it. */
  lemma BadgeCases(t: Truck, f: Option<FeasibilityResult>, baseMs: int)
    ensures StatusBadge(t, f, baseMs).PrechargeBadge? <==> f.Some? && f.value.feasibleAfterPrecharge
    ensures StatusBadge(t, f, baseMs).WaitForChargeBadge? <==>
      f.Some? && !f.value.feasibleAfterPrecharge && f.value.status == Green && TotalWaitMins(t, f) > 0
    ensures StatusBadge(t, f, baseMs).DepotChargeBadge? <==>
      f.Some? && !f.value.feasibleAfterPrecharge && f.value.status == Yellow
    ensures StatusBadge(t, f, baseMs).InfeasibleBadge? <==>
      f.Some? && !f.value.feasibleAfterPrecharge && f.value.status == Red
    ensures StatusBadge(t, f, baseMs).ReadyBadge? <==>
      (f.Some? && !f.value.feasibleAfterPrecharge && f.value.status == Green && TotalWaitMins(t, f) == 0)
      || (FallsBack(t, f) && t.status == Ready)
    ensures StatusBadge(t, f, baseMs).ChargingFullBadge? <==> f.None? && t.status == Charging
    ensures StatusBadge(t, f, baseMs).ChargingBadge? <==> f.Some? && FallsBack(t, f) && t.status == Charging
    ensures StatusBadge(t, f, baseMs).MaintenanceBadge? <==> FallsBack(t, f) && t.status == Maintenance
    ensures StatusBadge(t, f, baseMs).RawStatusBadge? <==> FallsBack(t, f) && t.status.OtherTruckStatus?
    ensures StatusBadge(t, f, baseMs).RawStatusBadge? ==>
      StatusBadge(t, f, baseMs).text == TruckStatusText(t.status)
  {
  }

  /** Pre-charge wins over every status, yellow and red included. */
  lemma PrechargeWins(t: Truck, f: FeasibilityResult, baseMs: int)
    requires f.feasibleAfterPrecharge
    ensures StatusBadge(t, Some(f), baseMs)
         == PrechargeBadge(TotalWaitMins(t, Some(f)), AvailableAt(t, Some(f), baseMs))
  {
  }

  /** Yellow gives the depot-charge badge even with no wait at all. */
  lemma YellowEvenWithoutWait(t: Truck, f: FeasibilityResult, baseMs: int)
    requires !f.feasibleAfterPrecharge && f.status == Yellow
    ensures StatusBadge(t, Some(f), baseMs).DepotChargeBadge?
    ensures StatusBadge(t, Some(f), baseMs).waitMins == TotalWaitMins(t, Some(f))
  {
  }

  /** The badge never looks at `not_available` or `no_charge_needed`. */
  lemma BadgeIgnoresAvailability(t: Truck, f: FeasibilityResult, na: bool, ncn: bool, baseMs: int)
    ensures StatusBadge(t, Some(f.(notAvailable := na, noChargeNeeded := ncn)), baseMs)
         == StatusBadge(t, Some(f), baseMs)
  {
  }

  /** Scenario: a depot pre-charge of 45 minutes with no charging ETA, at
      12:00, shows "Pre-charge — 45 min (Avail. 12:45)". */
  lemma PrechargeScenario(t: Truck, f: FeasibilityResult)
    requires t.chargeEtaMins.None? && f.feasibleAfterPrecharge && f.prechargeMins == Some(45)
    ensures StatusBadge(t, Some(f), 12 * 60 * MsPerMinute)
         == PrechargeBadge(45, (12 * 60 + 45) * MsPerMinute)
  {
  }

  // ---------------------------------------------------------------------------
  // Colours

  datatype Tone = AmberTone | GreenTone | YellowTone | RedTone | GrayTone

  /** `(charge_eta_mins || 0) > 0 || (precharge_mins || 0) > 0`. */
  predicate HasWaitTime(t: Truck, f: FeasibilityResult) {
    OrZero(t.chargeEtaMins) > 0 || OrZero(f.prechargeMins) > 0
  }

  function StatusTone(st: FeasibilityStatus): Tone {
    match st
    case Green => GreenTone
    case Yellow => YellowTone
    case Red => RedTone
    case UnrecognizedStatus(_) => GrayTone
  }

  /** `getFeasibilityStyles`: the card border. Green with a wait is checked
      before pre-charge (both give amber). */
  function BorderTone(t: Truck, f: Option<FeasibilityResult>): Tone {
    if f.None? || f.value.notAvailable then GrayTone
    else if f.value.status == Green && HasWaitTime(t, f.value) then AmberTone
    else if f.value.feasibleAfterPrecharge then AmberTone
    else StatusTone(f.value.status)
  }

  /** `getFeasibilityBadgeStyles`: the arrival-SoC chip; `None` is the empty class. */
  function ArrivalChipTone(t: Truck, f: Option<FeasibilityResult>): Option<Tone> {
    if f.None? then None
    else if f.value.feasibleAfterPrecharge || (f.value.status == Green && HasWaitTime(t, f.value)) then Some(AmberTone)
    else Some(StatusTone(f.value.status))
  }

  /** The border is gray without a usable result, amber for pre-charge or
      green with a wait, and otherwise follows the status. */
  lemma BorderCases(t: Truck, f: Option<FeasibilityResult>)
    ensures f.None? || f.value.notAvailable ==> BorderTone(t, f) == GrayTone
    ensures f.Some? && !f.value.notAvailable ==>
      (BorderTone(t, f) == AmberTone <==>
        f.value.feasibleAfterPrecharge || (f.value.status == Green && HasWaitTime(t, f.value)))
    ensures f.Some? && !f.value.notAvailable && !f.value.feasibleAfterPrecharge
      && !(f.value.status == Green && HasWaitTime(t, f.value))
      ==> BorderTone(t, f) == StatusTone(f.value.status)
  {
  }

  /** Where the arrival chip is drawn (a result that is not `not_available`),
      it has the border's colour: the two checks differ only in order. */
  lemma ChipMatchesBorder(t: Truck, f: FeasibilityResult)
    requires !f.notAvailable
    ensures ArrivalChipTone(t, Some(f)) == Some(BorderTone(t, Some(f)))
  {
  }

  /** The badge tests the summed wait, the colours test each part; they agree
      when no part is negative, and an amber badge always meets an amber
      border unless the result is `not_available`. */
  lemma WaitTestsAgree(t: Truck, f: FeasibilityResult, baseMs: int)
    ensures OrZero(t.chargeEtaMins) >= 0 && OrZero(f.prechargeMins) >= 0 ==>
      (HasWaitTime(t, f) <==> TotalWaitMins(t, Some(f)) > 0)
    ensures !f.notAvailable &&
      (StatusBadge(t, Some(f), baseMs).PrechargeBadge? || StatusBadge(t, Some(f), baseMs).WaitForChargeBadge?)
      ==> BorderTone(t, Some(f)) == AmberTone
  {
  }

  /** `getSoCColor`. */
  function SocTone(soc: real): (c: Tone)
    ensures c == GreenTone <==> soc > 50.0
    ensures c == YellowTone <==> 20.0 <= soc <= 50.0
    ensures c == RedTone <==> soc < 20.0
  {
    if soc > 50.0 then GreenTone
    else if soc >= 20.0 then YellowTone
    else RedTone
  }

  // ---------------------------------------------------------------------------
  // What the card shows

  /** Ready or charging trucks can be dispatched; others are dimmed and
      labelled "Not available for dispatch". */
  predicate IsAvailable(t: Truck) {
    t.status == Ready || t.status == Charging
  }

  /** The feasibility details (chips, dispatch button, banner) are drawn for
      a result that is not `not_available`; for one that is, only the
      "skipped in feasibility analysis" note is. */
  predicate ShowsDetails(f: Option<FeasibilityResult>) {
    f.Some? && !f.value.notAvailable
  }

  predicate ShowsSkippedNote(f: Option<FeasibilityResult>) {
    f.Some? && f.value.notAvailable
  }

  predicate ShowsDispatchButton(t: Truck, f: Option<FeasibilityResult>) {
    ShowsDetails(f) && IsAvailable(t) && f.value.status != Red
  }

  /** The "INFEASIBLE ROUTE" banner; hidden while the leg table is open. */
  predicate ShowsInfeasibleBanner(f: Option<FeasibilityResult>, showLegs: bool) {
    ShowsDetails(f) && f.value.status == Red && !f.value.feasibleAfterPrecharge && !showLegs
  }

  /** Dispatch is offered exactly for an available truck with a usable,
      non-red result; it never appears beside the infeasible banner or the
      skipped note. */
  lemma DispatchCases(t: Truck, f: Option<FeasibilityResult>, showLegs: bool)
    ensures ShowsDispatchButton(t, f) <==>
      f.Some? && !f.value.notAvailable && f.value.status != Red && (t.status == Ready || t.status == Charging)
    ensures !(ShowsDispatchButton(t, f) && ShowsInfeasibleBanner(f, showLegs))
    ensures !(ShowsDispatchButton(t, f) && ShowsSkippedNote(f))
  {
  }
}
