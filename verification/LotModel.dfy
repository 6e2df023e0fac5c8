/** Parking sessions, occupancy counters and the counter ledger: what each service call decides
    (backend/app/modules/checkin/service.py, checkin/counter_service.py, checkout/service.py,
    checkin/counter_reconciliation.py and operations/emergency_service.py). */
module LotModel {
  import opened Common
  import opened Plates
  import opened Capacity

  datatype Status =
    Created | Entered | Parked | PaymentPending | Paid | Exited | Completed | Cancelled | Faulted

  /** The statuses that the unique indexes and the emergency exit treat as being in the lot. */
  predicate Active(s: Status) { s in {Parked, Entered, PaymentPending, Paid} }

  predicate CheckoutEligible(s: Status) { s in {Parked, PaymentPending, Paid} }

  /** What a check-in's idempotency fingerprint is made of; equal fingerprints are equal requests.
      `details` stands for source, plate reading, confidence, ticket kind, customer class and zone. */
  datatype Fingerprint = Fingerprint(operator: nat, lane: nat, plate: Option<string>, vehicleType: string,
                                     ticket: Option<string>, detection: Option<nat>, reason: Option<string>,
                                     details: nat)

  /** A session row. The customer class is not stored by the program; it is kept here to state what
      the class limits achieve. */
  datatype Session = Session(
    building: nat, vehicleType: string, cls: CustomerClass,
    plate: Option<string>, ticket: Option<string>, status: Status, fee: int,
    exitLane: Option<nat>, checkInKey: string, fingerprint: Fingerprint, checkoutKeys: set<string>)

  datatype CounterKey = CounterKey(building: Option<nat>, vehicleType: string)

  datatype CounterEvent = CounterEvent(key: CounterKey, delta: int, session: Option<nat>)

  /** The database. A session is identified by its row; a counter that has no row reads as zero. */
  datatype Lot = Lot(sessions: seq<Session>, counters: map<CounterKey, int>, ledger: seq<CounterEvent>)

  /** The vehicle types that the availability board and reconciliation go through. */
  const VEHICLE_TYPES := ["CAR", "MOTORBIKE", "BICYCLE"]

  const EMPTY_LOT := Lot([], map[], [])

  datatype Lane = Lane(active: bool, inbound: bool, building: nat, allowed: Option<string>)

  datatype Detection = Detection(lane: nat, building: nat)

  /** What a run takes as given: lanes, detections, stored capacity settings and upper-casing. */
  datatype Site = Site(lanes: map<nat, Lane>, detections: map<nat, Detection>,
                       settings: map<CounterKey, Stored>, upper: CaseMap)

  /** The rows an account sees: those of its building, or all of them for one without a building. */
  predicate Visible(scope: Option<nat>, building: nat) { scope.None? || scope == Some(building) }

  ghost predicate SiteValid(site: Site) {
    && FixesPlateChars(site.upper)
    && forall k :: k in site.settings ==> SchemaAccepts(site.settings[k])
  }

  // ---------------------------------------------------------------------------------------
  // Counters
  // ---------------------------------------------------------------------------------------

  /** The counter of a vehicle type as spelled in a request. */
  function KeyFor(site: Site, building: Option<nat>, spelling: string): CounterKey {
    CounterKey(building, Upper(site.upper, spelling))
  }

  function KeyOf(site: Site, s: Session): CounterKey { KeyFor(site, Some(s.building), s.vehicleType) }

  function ConfigAt(site: Site, key: CounterKey): Config {
    SettingsFor(key.vehicleType,
                if key.building.Some? && key in site.settings then Some(site.settings[key]) else None)
  }

  function LimitAt(site: Site, key: CounterKey, cls: CustomerClass): int { Limit(ConfigAt(site, key), cls) }

  function Occupied(lot: Lot, key: CounterKey): int {
    if key in lot.counters then lot.counters[key] else 0
  }

  /** Sets a counter and logs the change. */
  function Logged(lot: Lot, key: CounterKey, occupied: int, delta: int, session: Option<nat>): Lot {
    lot.(counters := lot.counters[key := occupied],
         ledger := lot.ledger + [CounterEvent(key, delta, session)])
  }

  /** A decrement stops at zero, but is logged as minus one all the same. */
  function Decremented(lot: Lot, key: CounterKey, session: nat): Lot {
    var occupied := Occupied(lot, key);
    Logged(lot, key, if occupied > 0 then occupied - 1 else occupied, -1, Some(session))
  }

  // ---------------------------------------------------------------------------------------
  // Effects
  // ---------------------------------------------------------------------------------------

  /** What a committed service call does to the database. A call that raises rolls back. */
  datatype Effect =
    | Unchanged
    | Admit(session: Session)
    | Hold(row: nat, fee: int, lane: nat, key: string)
    | Close(row: nat, fee: int, lane: nat, keys: set<string>)
    | AdjustBy(counter: CounterKey, delta: int)
    | Reconcile(building: Option<nat>, cars: nat, motorbikes: nat, bicycles: nat)

  /** Moves a counter to a target through the ledger, or leaves it if it is there. */
  function AdjustedTo(lot: Lot, key: CounterKey, target: int): Lot {
    if Occupied(lot, key) == target then lot.(counters := lot.counters[key := target])
    else Logged(lot, key, target, target - Occupied(lot, key), None)
  }

  function Reconciled(lot: Lot, building: Option<nat>, cars: nat, motorbikes: nat, bicycles: nat): Lot {
    AdjustedTo(AdjustedTo(AdjustedTo(lot, CounterKey(building, "CAR"), cars),
                          CounterKey(building, "MOTORBIKE"), motorbikes),
               CounterKey(building, "BICYCLE"), bicycles)
  }

  function Held(s: Session, fee: int, lane: nat, key: string): Session {
    s.(status := PaymentPending, fee := fee, exitLane := Some(lane), checkoutKeys := s.checkoutKeys + {key})
  }

  function Closed(s: Session, fee: int, lane: nat, keys: set<string>): Session {
    s.(status := Completed, fee := fee, exitLane := Some(lane), checkoutKeys := s.checkoutKeys + keys)
  }

  function Apply(site: Site, lot: Lot, e: Effect): Lot {
    match e
    case Unchanged => lot
    case Admit(s) =>
      var key := KeyOf(site, s);
      Logged(lot.(sessions := lot.sessions + [s]), key, Occupied(lot, key) + 1, 1, Some(|lot.sessions|))
    case Hold(row, fee, lane, key) =>
      if row >= |lot.sessions| then lot
      else lot.(sessions := lot.sessions[row := Held(lot.sessions[row], fee, lane, key)])
    case Close(row, fee, lane, keys) =>
      if row >= |lot.sessions| then lot
      else
        var s := lot.sessions[row];
        Decremented(lot.(sessions := lot.sessions[row := Closed(s, fee, lane, keys)]), KeyOf(site, s), row)
    case AdjustBy(key, delta) => Logged(lot, key, Occupied(lot, key) + delta, delta, None)
    case Reconcile(building, cars, motorbikes, bicycles) =>
      Reconciled(lot, building, cars, motorbikes, bicycles)
  }

  datatype LotError =
    | KeyRequired | KeyTooLong | KeyMismatch | InvalidPlate | LaneNotFound | KeyReused | LaneInactive
    | WrongLaneDirection | DetectionNotFound | DetectionLaneMismatch | AccessDenied | ReviewRequired | CapacityFull
    | PlateAlreadyParked | TicketAlreadyActive | NotReady | ConstraintViolated
    | SessionNotFound | DuplicateActiveSessions | InvalidSessionStatus | BuildingMismatch
    | VehicleTypeMismatch | FeeChanged | ExitLaneMissing | InvalidDelta | NegativeOccupied

  datatype Drift = Drift(vehicleType: string, occupied: int, active: nat)

  datatype Reply =
    | Refused(error: LotError)
    | Replayed(row: nat)
    | CheckedIn(row: nat)
    | AlreadyClosed(row: nat, fee: int)
    | FeeDue(row: nat, fee: int)
    | Left(row: nat, fee: int)
    | BarrierOpened
    | Adjusted
    | Report(drifts: seq<Drift>, corrected: bool)

  datatype Outcome = Outcome(reply: Reply, effect: Effect)

  function Refuse(error: LotError): Outcome { Outcome(Refused(error), Unchanged) }

  predicate IsSpace(c: char) { c in " \t\n\r" }

  function KeyError(key: string): Option<LotError> {
    if forall i :: 0 <= i < |key| ==> IsSpace(key[i]) then Some(KeyRequired)
    else if |key| > 255 then Some(KeyTooLong)
    else None
  }

  // ---------------------------------------------------------------------------------------
  // Check-in
  // ---------------------------------------------------------------------------------------

  datatype AccessDecision = Allow | Deny | Review

  /** The key is the one in the header, or else the one in the body. */
  datatype CheckInRequest = CheckInRequest(
    scope: Option<nat>, operator: nat, lane: nat, vehicleType: string, cls: CustomerClass,
    plate: Option<string>, ticket: Option<string>, key: string, bodyKey: Option<string>,
    detection: Option<nat>, reason: Option<string>, details: nat)

  /** Decisions taken outside this model: the blacklist and pass check, and whether the building is
      ready and the visit can be priced. */
  datatype Outside = Outside(access: AccessDecision, ready: bool)

  function TypeOf(req: CheckInRequest): string { if req.vehicleType == "" then "CAR" else req.vehicleType }

  function PlateOf(site: Site, req: CheckInRequest): Option<string> {
    if req.plate.None? || req.plate.value == "" then None
    else Some(NormalizePlate(site.upper, req.plate.value))
  }

  predicate HasOverride(req: CheckInRequest) { req.reason.Some? && req.reason.value != "" }

  function WithCheckInKey(building: nat, key: string): Session -> bool {
    (s: Session) => s.building == building && s.checkInKey == key
  }

  function ParkedWithPlate(building: nat, plate: string): Session -> bool {
    (s: Session) => s.status == Parked && s.building == building && s.plate == Some(plate)
  }

  function ActiveWithTicketIn(building: nat, ticket: string): Session -> bool {
    (s: Session) => Active(s.status) && s.building == building && s.ticket == Some(ticket)
  }

  /** The unique index on active tickets goes across buildings. */
  function TicketConflict(ticket: Option<string>): Session -> bool {
    (s: Session) => Active(s.status) && ticket.Some? && s.ticket == ticket
  }

  function PlateConflict(building: nat, plate: Option<string>): Session -> bool {
    (s: Session) => Active(s.status) && plate.Some? && s.building == building && s.plate == plate
  }

  /** Access control: lane and vehicle type, tickets for bicycles, blacklist and pass, capacity. An
      override of a review skips the capacity pre-check, though not the guard on the counter. */
  function AccessError(site: Site, lot: Lot, lane: Lane, req: CheckInRequest, outside: Outside): Option<LotError> {
    var key := KeyFor(site, Some(lane.building), TypeOf(req));
    if lane.allowed.Some? && lane.allowed.value != TypeOf(req) then Some(AccessDenied)
    else if TypeOf(req) == "BICYCLE" && (req.ticket.None? || req.ticket.value == "") then Some(AccessDenied)
    else if outside.access.Deny? then Some(AccessDenied)
    else if outside.access.Review? then if HasOverride(req) then None else Some(ReviewRequired)
    else if Occupied(lot, key) >= LimitAt(site, key, req.cls) then Some(CapacityFull)
    else None
  }

  function DuplicateError(lot: Lot, building: nat, plate: Option<string>, ticket: Option<string>): Option<LotError> {
    if plate.Some? && plate.value != "" && First(lot.sessions, ParkedWithPlate(building, plate.value)).Some?
    then Some(PlateAlreadyParked)
    else if ticket.Some? && ticket.value != "" && First(lot.sessions, ActiveWithTicketIn(building, ticket.value)).Some?
    then Some(TicketAlreadyActive)
    else None
  }

  function DetectionError(site: Site, lane: Lane, req: CheckInRequest): Option<LotError> {
    if req.detection.None? then None
    else if req.detection.value !in site.detections
            || site.detections[req.detection.value].building != lane.building then Some(DetectionNotFound)
    else if site.detections[req.detection.value].lane != req.lane then Some(DetectionLaneMismatch)
    else None
  }

  /** The lane of a request, if its account sees it. */
  predicate LaneSeen(site: Site, scope: Option<nat>, lane: nat) {
    lane in site.lanes && Visible(scope, site.lanes[lane].building)
  }

  function NewSession(site: Site, lane: Lane, req: CheckInRequest): Session {
    Session(lane.building, TypeOf(req), req.cls, PlateOf(site, req), req.ticket, Parked, 0, None, req.key,
            Fingerprint(req.operator, req.lane, PlateOf(site, req), req.vehicleType, req.ticket,
                        req.detection, req.reason, req.details), {})
  }

  /** Once the lane is found, everything is looked up in the building of the lane. */
  function DecideCheckIn(site: Site, lot: Lot, req: CheckInRequest, outside: Outside): Outcome {
    var plate := PlateOf(site, req);
    if KeyError(req.key).Some? then Refuse(KeyError(req.key).value)
    else if req.bodyKey.Some? && req.bodyKey.value != req.key then Refuse(KeyMismatch)
    else if plate.Some? && !(3 <= |plate.value| <= 50) then Refuse(InvalidPlate)
    else if !LaneSeen(site, req.scope, req.lane) then Refuse(LaneNotFound)
    else
      var lane := site.lanes[req.lane];
      var s := NewSession(site, lane, req);
      var existing := First(lot.sessions, WithCheckInKey(lane.building, req.key));
      if existing.Some? then
        if lot.sessions[existing.value].fingerprint != s.fingerprint then Refuse(KeyReused)
        else Outcome(Replayed(existing.value), Unchanged)
      else if !lane.active then Refuse(LaneInactive)
      else if !lane.inbound then Refuse(WrongLaneDirection)
      else if DetectionError(site, lane, req).Some? then Refuse(DetectionError(site, lane, req).value)
      else if AccessError(site, lot, lane, req, outside).Some? then
        Refuse(AccessError(site, lot, lane, req, outside).value)
      else if DuplicateError(lot, lane.building, plate, req.ticket).Some? then
        Refuse(DuplicateError(lot, lane.building, plate, req.ticket).value)
      else if !outside.ready then Refuse(NotReady)
      else if First(lot.sessions, PlateConflict(lane.building, plate)).Some?
              || First(lot.sessions, TicketConflict(req.ticket)).Some? then
        Refuse(ConstraintViolated)
      else if Occupied(lot, KeyOf(site, s)) >= LimitAt(site, KeyOf(site, s), req.cls) then
        Refuse(CapacityFull)
      else Outcome(CheckedIn(|lot.sessions|), Admit(s))
  }

  // ---------------------------------------------------------------------------------------
  // Check-out and payment
  // ---------------------------------------------------------------------------------------

  datatype CheckoutRequest = CheckoutRequest(
    scope: Option<nat>, session: Option<nat>, ticket: Option<string>, plate: Option<string>,
    exitLane: nat, vehicleTypeOut: Option<string>, paysNow: bool, expectedFee: Option<int>,
    hasOverride: bool, lostTicket: bool, key: string)

  function ClosedWithKey(scope: Option<nat>, key: string): Session -> bool {
    (s: Session) =>
      && s.status in {Completed, Exited} && Visible(scope, s.building)
      && (key in s.checkoutKeys || s.checkInKey == key)
  }

  /** The building is compared with that of the account; an account without one matches no row. */
  function EligibleWithTicket(scope: Option<nat>, ticket: string): Session -> bool {
    (s: Session) => CheckoutEligible(s.status) && Some(s.building) == scope && s.ticket == Some(ticket)
  }

  function EligibleWithPlate(scope: Option<nat>, plate: string): Session -> bool {
    (s: Session) => CheckoutEligible(s.status) && Some(s.building) == scope && s.plate == Some(plate)
  }

  function OnlyRow(rows: seq<Session>, p: Session -> bool): (r: Result<nat, LotError>)
    ensures r.Success? ==> r.value < |rows| && p(rows[r.value])
    ensures r.Failure? ==> r.error in {SessionNotFound, DuplicateActiveSessions}
  {
    var first := First(rows, p);
    if first.None? then Failure(SessionNotFound)
    else if Count(rows, p) > 1 then Failure(DuplicateActiveSessions)
    else Success(first.value)
  }

  /** The one open session a request names: by row, else by ticket, else by plate. */
  function FindSession(site: Site, lot: Lot, req: CheckoutRequest): (r: Result<nat, LotError>)
    ensures r.Success? ==> r.value < |lot.sessions| && CheckoutEligible(lot.sessions[r.value].status)
  {
    if req.session.Some? then
      var row := req.session.value;
      if row >= |lot.sessions| || !Visible(req.scope, lot.sessions[row].building) then Failure(SessionNotFound)
      else if !CheckoutEligible(lot.sessions[row].status) then Failure(InvalidSessionStatus)
      else Success(row)
    else if req.ticket.Some? && req.ticket.value != "" then
      OnlyRow(lot.sessions, EligibleWithTicket(req.scope, Upper(site.upper, req.ticket.value)))
    else if req.plate.Some? && req.plate.value != "" then
      OnlyRow(lot.sessions, EligibleWithPlate(req.scope, NormalizePlate(site.upper, req.plate.value)))
    else Failure(SessionNotFound)
  }

  function ExitError(site: Site, s: Session, req: CheckoutRequest, fee: nat): Option<LotError> {
    if !LaneSeen(site, req.scope, req.exitLane) then Some(LaneNotFound)
    else
      var lane := site.lanes[req.exitLane];
      if !lane.active then Some(LaneInactive)
      else if lane.inbound then Some(WrongLaneDirection)
      else if lane.building != s.building then Some(BuildingMismatch)
      else if req.vehicleTypeOut.Some? && req.vehicleTypeOut.value != ""
              && Upper(site.upper, req.vehicleTypeOut.value) != Upper(site.upper, s.vehicleType)
              && !req.hasOverride then Some(VehicleTypeMismatch)
      else if req.expectedFee.Some? && req.expectedFee.value != fee then Some(FeeChanged)
      else None
  }

  /** A check-out at which the session's fee is `fee`. */
  function DecideCheckout(site: Site, lot: Lot, req: CheckoutRequest, fee: nat): Outcome {
    if KeyError(req.key).Some? then Refuse(KeyError(req.key).value)
    else
      var done := First(lot.sessions, ClosedWithKey(req.scope, req.key));
      if done.Some? then Outcome(AlreadyClosed(done.value, lot.sessions[done.value].fee), Unchanged)
      else
        var found := FindSession(site, lot, req);
        if found.Failure? then Refuse(found.error)
        else
          var row := found.value;
          var s := lot.sessions[row];
          if s.status == Paid then
            Outcome(Left(row, s.fee), Close(row, s.fee, req.exitLane, {req.key}))
          else if ExitError(site, s, req, fee).Some? then Refuse(ExitError(site, s, req, fee).value)
          else if fee == 0 || req.paysNow then
            Outcome(Left(row, fee), Close(row, fee, req.exitLane, {req.key}))
          else Outcome(FeeDue(row, fee), Hold(row, fee, req.exitLane, req.key))
  }

  /** Recording a payment closes a session that waits for one, at the fee it was held with. The amount
      is written to the audit log and nowhere else. */
  function DecidePayment(lot: Lot, scope: Option<nat>, row: nat, amount: nat): Outcome {
    if row >= |lot.sessions| || !Visible(scope, lot.sessions[row].building) then Refuse(SessionNotFound)
    else
      var s := lot.sessions[row];
      if s.status !in {PaymentPending, Paid} then Refuse(InvalidSessionStatus)
      else if s.exitLane.None? then Refuse(ExitLaneMissing)
      else Outcome(Left(row, s.fee), Close(row, s.fee, s.exitLane.value, {}))
  }

  // ---------------------------------------------------------------------------------------
  // Emergency exit
  // ---------------------------------------------------------------------------------------

  datatype EmergencyRequest = EmergencyRequest(
    scope: Option<nat>, lane: nat, session: Option<nat>, plate: Option<string>, ticket: Option<string>)

  function EvacuationMatch(site: Site, lane: Lane, req: EmergencyRequest): Session -> bool {
    (s: Session) =>
      && Active(s.status)
      && s.building == lane.building
      && (if req.plate.Some? && req.plate.value != ""
          then s.plate == Some(NormalizePlate(site.upper, req.plate.value))
          else req.ticket.Some? && req.ticket.value != "" && s.ticket == req.ticket)
  }

  /** The barrier opens in any case; a session that is found in the lot is closed free of charge. */
  function DecideEmergency(site: Site, lot: Lot, req: EmergencyRequest): Outcome {
    if !LaneSeen(site, req.scope, req.lane) then Refuse(LaneNotFound)
    else if !site.lanes[req.lane].active then Refuse(LaneInactive)
    else
      var found :=
        if req.session.Some? then req.session
        else First(lot.sessions, EvacuationMatch(site, site.lanes[req.lane], req));
      if found.Some? && found.value < |lot.sessions| && Visible(req.scope, lot.sessions[found.value].building)
         && Active(lot.sessions[found.value].status) then
        Outcome(Left(found.value, 0), Close(found.value, 0, req.lane, {}))
      else Outcome(BarrierOpened, Unchanged)
  }

  // ---------------------------------------------------------------------------------------
  // Manual adjustment and reconciliation
  // ---------------------------------------------------------------------------------------

  function DecideAdjust(site: Site, lot: Lot, building: Option<nat>, spelling: string, delta: int): Outcome {
    var key := KeyFor(site, building, spelling);
    if delta == 0 then Refuse(InvalidDelta)
    else if Occupied(lot, key) + delta < 0 then Refuse(NegativeOccupied)
    else Outcome(Adjusted, AdjustBy(key, delta))
  }

  /** A reconciliation of a building by an account: it reads the rows of the one that the other sees. */
  datatype Area = Area(scope: Option<nat>, building: Option<nat>)

  function ParkedSpelled(area: Area, spelling: string): Session -> bool {
    (s: Session) =>
      && s.status == Parked && Some(s.building) == area.building && Visible(area.scope, s.building)
      && s.vehicleType == spelling
  }

  /** The groups of the parked sessions of a building by the vehicle type as stored, in whatever
      order the database returns them. */
  ghost predicate Groups(lot: Lot, area: Area, order: seq<string>) {
    && (forall i, j :: 0 <= i < j < |order| ==> order[i] != order[j])
    && (forall v :: v in order <==> Count(lot.sessions, ParkedSpelled(area, v)) >= 1)
  }

  function LastSpelling(site: Site, order: seq<string>, vehicleType: string): (r: Option<string>)
    ensures r.Some? ==> r.value in order && Upper(site.upper, r.value) == vehicleType && r.value != ""
    ensures r.None? ==> forall v :: v in order && v != "" ==> Upper(site.upper, v) != vehicleType
  {
    if order == [] then None
    else
      var n := |order| - 1;
      assert order == order[..n] + [order[n]];
      if order[n] != "" && Upper(site.upper, order[n]) == vehicleType then Some(order[n])
      else LastSpelling(site, order[..n], vehicleType)
  }

  /** The active count that reconciliation reads: of the groups whose upper-cased name is the type,
      the last one wins. */
  function ActiveCount(site: Site, lot: Lot, area: Area, order: seq<string>, vehicleType: string): nat {
    var spelling := LastSpelling(site, order, vehicleType);
    if spelling.Some? then Count(lot.sessions, ParkedSpelled(area, spelling.value)) else 0
  }

  lemma ActiveCountReadsSessions(site: Site, lot: Lot, lot': Lot, area: Area, order: seq<string>, v: string)
    requires lot'.sessions == lot.sessions
    ensures ActiveCount(site, lot', area, order, v) == ActiveCount(site, lot, area, order, v)
  {
  }

  function DriftOf(lot: Lot, building: Option<nat>, vehicleType: string, active: nat): seq<Drift> {
    var occupied := Occupied(lot, CounterKey(building, vehicleType));
    if occupied == active then [] else [Drift(vehicleType, occupied, active)]
  }

  function Drifts(site: Site, lot: Lot, area: Area, order: seq<string>): seq<Drift> {
    DriftOf(lot, area.building, "CAR", ActiveCount(site, lot, area, order, "CAR"))
    + DriftOf(lot, area.building, "MOTORBIKE", ActiveCount(site, lot, area, order, "MOTORBIKE"))
    + DriftOf(lot, area.building, "BICYCLE", ActiveCount(site, lot, area, order, "BICYCLE"))
  }

  function DecideReconcile(site: Site, lot: Lot, area: Area, autoCorrect: bool, order: seq<string>)
    : Outcome
  {
    var drifts := Drifts(site, lot, area, order);
    if drifts == [] || !autoCorrect then Outcome(Report(drifts, false), Unchanged)
    else Outcome(Report(drifts, true),
                 Reconcile(area.building,
                           ActiveCount(site, lot, area, order, "CAR"),
                           ActiveCount(site, lot, area, order, "MOTORBIKE"),
                           ActiveCount(site, lot, area, order, "BICYCLE")))
  }

  // ---------------------------------------------------------------------------------------
  // Steps and runs
  // ---------------------------------------------------------------------------------------

  datatype Step =
    | CheckIn(checkIn: CheckInRequest, outside: Outside)
    | Checkout(checkout: CheckoutRequest, fee: nat)
    | RecordPayment(scope: Option<nat>, row: nat, amount: nat)
    | EmergencyExit(emergency: EmergencyRequest)
    | AdjustCounter(building: Option<nat>, spelling: string, delta: int)
    | ReconcileCounters(area: Area, autoCorrect: bool, order: seq<string>)

  function Decide(site: Site, lot: Lot, step: Step): Outcome {
    match step
    case CheckIn(req, outside) => DecideCheckIn(site, lot, req, outside)
    case Checkout(req, fee) => DecideCheckout(site, lot, req, fee)
    case RecordPayment(scope, row, amount) => DecidePayment(lot, scope, row, amount)
    case EmergencyExit(req) => DecideEmergency(site, lot, req)
    case AdjustCounter(building, spelling, delta) => DecideAdjust(site, lot, building, spelling, delta)
    case ReconcileCounters(area, autoCorrect, order) => DecideReconcile(site, lot, area, autoCorrect, order)
  }

  function Next(site: Site, lot: Lot, step: Step): Lot { Apply(site, lot, Decide(site, lot, step).effect) }

  function Run(site: Site, lot: Lot, steps: seq<Step>): Lot {
    if steps == [] then lot
    else Next(site, Run(site, lot, steps[..|steps| - 1]), steps[|steps| - 1])
  }

  /** Steps other than manual adjustment and reconciliation. */
  predicate Ordinary(step: Step) { !step.AdjustCounter? && !step.ReconcileCounters? }

  predicate AllOrdinary(steps: seq<Step>) { forall i :: 0 <= i < |steps| ==> Ordinary(steps[i]) }
}
