/** What each parking service does in terms of rows, lanes and stored settings: who is let in and who is
    let out, and which row a request names (backend/app/modules/checkin/service.py,
    checkin/capacity_quota_stub.py, checkout/service.py, operations/emergency_service.py). */
module LotOutcomes {
  import opened Common
  import opened Plates
  import opened Capacity
  import opened LotModel
  import opened LotRuns
  import LotLimits

  // ---------------------------------------------------------------------------------------
  // Limits come from the stored settings
  // ---------------------------------------------------------------------------------------

  /** The places kept for residents and staff where a building sets no quotas. */
  function UsualReserve(vehicleType: string): nat {
    if vehicleType == "CAR" then 30 else if vehicleType == "MOTORBIKE" then 70
    else if vehicleType == "BICYCLE" then 0 else 15
  }

  function UsualPlaces(vehicleType: string): nat {
    if vehicleType == "CAR" then 120 else if vehicleType == "MOTORBIKE" then 250
    else if vehicleType == "BICYCLE" then 60 else 100
  }

  function UsualVisitorPlaces(vehicleType: string): nat {
    if vehicleType == "CAR" then 70 else if vehicleType == "MOTORBIKE" then 130
    else if vehicleType == "BICYCLE" then 50 else 65
  }

  /** The building stores capacities for the vehicle type, with room for some vehicle. */
  predicate Stores(site: Site, key: CounterKey) {
    && key.building.Some? && key in site.settings
    && site.settings[key].physical.Some? && site.settings[key].physical.value > 0
  }

  function Reserve(e: Stored, vehicleType: string): int
    requires e.safe.Some?
  {
    if e.residents == 0 && e.employees == 0 && e.safe.value > UsualReserve(vehicleType) then UsualReserve(vehicleType)
    else e.residents + e.employees
  }

  /** Residents and staff are limited by the stored physical capacity, visitors by the stored safe capacity
      less the stored quotas, or less the usual reserve if no quotas are stored and it fits. Where
      nothing is stored, or no room at all, the usual numbers hold. */
  lemma LimitsComeFromSettings(site: Site, key: CounterKey)
    requires SiteValid(site)
    ensures LimitAt(site, key, Resident) == LimitAt(site, key, Staff)
         == if Stores(site, key) then site.settings[key].physical.value else UsualPlaces(key.vehicleType)
    ensures Stores(site, key) ==> site.settings[key].safe.Some?
    ensures LimitAt(site, key, Visitor)
         == if Stores(site, key) then site.settings[key].safe.value - Reserve(site.settings[key], key.vehicleType)
            else UsualVisitorPlaces(key.vehicleType)
  {
    assert "CAR"[0] == 'C' && "MOTORBIKE"[0] == 'M' && "BICYCLE"[0] == 'B';
  }

  lemma EmptyLotIsEmpty(site: Site, key: CounterKey)
    ensures InLot(site, EMPTY_LOT, key) == 0 && Occupied(EMPTY_LOT, key) == 0
  {
  }

  /** On every ordinary run of a building that stores capacities, visitors never exceed the safe capacity
      less the reserve, and vehicles never exceed the physical capacity. */
  lemma StoredSettingsHoldOnRuns(site: Site, steps: seq<Step>, key: CounterKey)
    requires SiteValid(site) && AllOrdinary(steps) && Stores(site, key)
    ensures var lot, e := Run(site, EMPTY_LOT, steps), site.settings[key];
            && e.safe.Some? && LotLimits.Visitors(site, lot, key) <= e.safe.value - Reserve(e, key.vehicleType)
            && Occupied(lot, key) == InLot(site, lot, key) <= e.physical.value
  {
    hide Run, Occupied, InLot, LimitAt, LotLimits.Visitors;
    LimitsComeFromSettings(site, key);
    LotLimits.VisitorsStayWithinLimit(site, steps, key);
    LotLimits.EntryIsAccepted(site, key);
    EmptyLotIsBalanced(site);
    EmptyLotIsEmpty(site, key);
    CountersCountVehicles(site, EMPTY_LOT, steps);
    LotLimits.ShortfallNeverGrows(site, EMPTY_LOT, steps, key);
    assert Occupied(Run(site, EMPTY_LOT, steps), key) == InLot(site, Run(site, EMPTY_LOT, steps), key);
  }

  /** The board of a building that stores capacities: free places under the safe capacity, for visitors
      less the reserve, and full or nearly full from the stored percentages of the safe capacity on. */
  lemma BoardComesFromSettings(site: Site, key: CounterKey, occupied: nat)
    requires SiteValid(site) && Stores(site, key)
    ensures site.settings[key].safe.Some?
    ensures var e, board := site.settings[key], AvailabilityOf(ConfigAt(site, key), occupied);
            var load, base := 100.0 * (occupied as real), Max(1, e.safe.value) as real;
            && board.available == (if occupied <= e.safe.value then e.safe.value - occupied else 0)
            && board.availableForVisitor
               == (if occupied + Reserve(e, key.vehicleType) <= e.safe.value
                   then e.safe.value - Reserve(e, key.vehicleType) - occupied else 0)
            && (board.status == Full <==> load >= e.fullPercent * base)
            && (board.status == Available <==> load < e.fullPercent * base && load < e.nearlyFullPercent * base)
  {
    hide ConfigAt;
    StoredConfig(site, key);
    var e := site.settings[key];
    var x, y := occupied as real, Max(1, e.safe.value) as real;
    RatioReaches(x, y, e.fullPercent);
    RatioReaches(x, y, e.nearlyFullPercent);
  }

  lemma StoredConfig(site: Site, key: CounterKey)
    requires SiteValid(site) && Stores(site, key)
    ensures site.settings[key].safe.Some?
    ensures var e, cfg := site.settings[key], ConfigAt(site, key);
            && cfg.physical == e.physical.value && cfg.safe == e.safe.value
            && cfg.residentQuota + cfg.staffQuota == Reserve(e, key.vehicleType)
            && cfg.full == e.fullPercent / 100.0 && cfg.nearlyFull == e.nearlyFullPercent / 100.0
  {
    assert "CAR"[0] == 'C' && "MOTORBIKE"[0] == 'M' && "BICYCLE"[0] == 'B';
  }

  lemma RatioReaches(x: real, y: real, percent: real)
    requires y > 0.0
    ensures x / y >= percent / 100.0 <==> 100.0 * x >= percent * y
  {
    var q := x / y;
    assert x == q * y;
    var d := 100.0 * q - percent;
    assert 100.0 * x - percent * y == d * y;
    if d >= 0.0 {
      assert d * y >= 0.0;
    } else {
      assert d * y < 0.0;
    }
  }

  // ---------------------------------------------------------------------------------------
  // Check-in
  // ---------------------------------------------------------------------------------------

  /** A key is usable: it has a visible character and at most 255 of them in all. */
  predicate UsableKey(key: string) { |key| <= 255 && exists i :: 0 <= i < |key| && key[i] !in " \t\n\r" }

  lemma KeyErrorExactly(key: string)
    ensures KeyError(key).None? <==> UsableKey(key)
  {
  }

  /** The session came from a request that asked for the same. */
  predicate AsksFor(s: Session, plate: Option<string>, req: CheckInRequest) {
    && s.fingerprint.operator == req.operator && s.fingerprint.lane == req.lane && s.fingerprint.plate == plate
    && s.fingerprint.vehicleType == req.vehicleType && s.fingerprint.ticket == req.ticket
    && s.fingerprint.detection == req.detection && s.fingerprint.reason == req.reason
    && s.fingerprint.details == req.details
  }

  /** A check-in is answered with an earlier session exactly when that is the first with its key in the building
      of the lane and came from the same request; with another request under the key it is refused. */
  lemma ReplayedExactly(site: Site, lot: Lot, req: CheckInRequest, outside: Outside, row: nat)
    requires LaneSeen(site, req.scope, req.lane) && UsableKey(req.key) && req.bodyKey.None?
    requires var plate := PlateOf(site, req); plate.Some? ==> 3 <= |plate.value| <= 50
    requires row < |lot.sessions| && lot.sessions[row].building == site.lanes[req.lane].building
    requires lot.sessions[row].checkInKey == req.key && LotLimits.KeysUnique(lot)
    ensures DecideCheckIn(site, lot, req, outside)
         == if AsksFor(lot.sessions[row], PlateOf(site, req), req)
            then Outcome(Replayed(row), Unchanged) else Refuse(KeyReused)
  {
    hide First, Upper, NormalizePlate, KeyError, PlateOf;
    KeyErrorExactly(req.key);
    var ours := WithCheckInKey(site.lanes[req.lane].building, req.key);
    assert ours(lot.sessions[row]) && First(lot.sessions, ours) == Some(row);
  }

  /** A check-in that is let in adds one row and one vehicle to the counter of its upper-cased type, and
      nothing else; the row says what was asked for. Any other check-in changes nothing. */
  lemma ArrivalIsRecorded(site: Site, lot: Lot, req: CheckInRequest, outside: Outside)
    requires req.lane in site.lanes
    ensures var lot' := Next(site, lot, CheckIn(req, outside));
            var building := site.lanes[req.lane].building;
            var kind := if req.vehicleType == "" then "CAR" else req.vehicleType;
            if DecideCheckIn(site, lot, req, outside).reply.CheckedIn? then
              && |lot'.sessions| == |lot.sessions| + 1 && lot'.sessions[..|lot.sessions|] == lot.sessions
              && (var s := lot'.sessions[|lot.sessions|];
                  && s.building == building && s.vehicleType == kind && s.cls == req.cls
                  && s.plate == (if req.plate.Some? && req.plate.value != ""
                                 then Some(NormalizePlate(site.upper, req.plate.value)) else None)
                  && s.ticket == req.ticket && s.status == Parked && s.fee == 0 && s.exitLane == None
                  && s.checkInKey == req.key && s.checkoutKeys == {} && AsksFor(s, s.plate, req))
              && (forall key :: Occupied(lot', key) == Occupied(lot, key)
                    + if key == CounterKey(Some(building), Upper(site.upper, kind)) then 1 else 0)
            else lot' == lot
  {
    hide First, NormalizePlate, Upper, LimitAt, KeyError;
  }

  ghost predicate SomeRow(lot: Lot, p: Session -> bool) { exists i :: 0 <= i < |lot.sessions| && p(lot.sessions[i]) }

  /** Every refusal of a check-in is true: what it says is so. */
  lemma RefusedArrivalsAreTold(site: Site, lot: Lot, req: CheckInRequest, outside: Outside)
    requires DecideCheckIn(site, lot, req, outside).reply.Refused?
    ensures var plate := PlateOf(site, req);
            match DecideCheckIn(site, lot, req, outside).reply.error
            case KeyRequired => forall i :: 0 <= i < |req.key| ==> req.key[i] in " \t\n\r"
            case KeyTooLong => |req.key| > 255
            case KeyMismatch => req.bodyKey.Some? && req.bodyKey.value != req.key
            case InvalidPlate => plate.Some? && (|plate.value| < 3 || |plate.value| > 50)
            case LaneNotFound =>
              req.lane !in site.lanes || (req.scope.Some? && req.scope.value != site.lanes[req.lane].building)
            case KeyReused => req.lane in site.lanes && SomeRow(lot, (s: Session) =>
                s.building == site.lanes[req.lane].building && s.checkInKey == req.key)
            case LaneInactive => req.lane in site.lanes && !site.lanes[req.lane].active
            case WrongLaneDirection => req.lane in site.lanes && !site.lanes[req.lane].inbound
            case DetectionNotFound => req.detection.Some?
            case DetectionLaneMismatch =>
              && req.detection.Some? && req.detection.value in site.detections
              && site.detections[req.detection.value].lane != req.lane
            case AccessDenied =>
              || outside.access.Deny?
              || (req.vehicleType == "BICYCLE" && (req.ticket.None? || req.ticket.value == ""))
              || (req.lane in site.lanes && site.lanes[req.lane].allowed.Some?)
            case ReviewRequired => outside.access.Review? && (req.reason.None? || req.reason.value == "")
            case PlateAlreadyParked => req.lane in site.lanes && plate.Some? && SomeRow(lot, (s: Session) =>
                s.status == Parked && s.building == site.lanes[req.lane].building && s.plate == plate)
            case TicketAlreadyActive => req.lane in site.lanes && req.ticket.Some? && SomeRow(lot, (s: Session) =>
                Active(s.status) && s.building == site.lanes[req.lane].building && s.ticket == req.ticket)
            case NotReady => !outside.ready
            case ConstraintViolated => SomeRow(lot, (s: Session) =>
                Active(s.status) && ((plate.Some? && s.plate == plate) || (req.ticket.Some? && s.ticket == req.ticket)))
            case CapacityFull =>
              && req.lane in site.lanes
              && var key := CounterKey(Some(site.lanes[req.lane].building), Upper(site.upper, TypeOf(req)));
                 Occupied(lot, key) >= LimitAt(site, key, req.cls)
            case _ => false
  {
    hide First, NormalizePlate, Upper, LimitAt, Occupied;
  }

  // ---------------------------------------------------------------------------------------
  // Which session a check-out finds
  // ---------------------------------------------------------------------------------------

  /** The request names the session: by its row, else by ticket, else by plate, within its account. */
  predicate NamedBy(site: Site, req: CheckoutRequest, row: nat, s: Session) {
    if req.session.Some? then req.session == Some(row) && (req.scope.None? || req.scope == Some(s.building))
    else if req.ticket.Some? && req.ticket.value != "" then
      req.scope == Some(s.building) && s.ticket == Some(Upper(site.upper, req.ticket.value))
    else if req.plate.Some? && req.plate.value != "" then
      req.scope == Some(s.building) && s.plate == Some(NormalizePlate(site.upper, req.plate.value))
    else false
  }

  /** An open session is found exactly when the request names it and no other open one. */
  lemma FoundExactly(site: Site, lot: Lot, req: CheckoutRequest, row: nat)
    ensures FindSession(site, lot, req) == Success(row) <==>
              && row < |lot.sessions| && lot.sessions[row].status in {Parked, PaymentPending, Paid}
              && NamedBy(site, req, row, lot.sessions[row])
              && (forall i ::
                    (0 <= i < |lot.sessions| && lot.sessions[i].status in {Parked, PaymentPending, Paid}
                     && NamedBy(site, req, i, lot.sessions[i])) ==> i == row)
  {
    hide Upper, NormalizePlate, First, Count;
    if req.session.None? {
      if req.ticket.Some? && req.ticket.value != "" {
        OnlyRowExactly(lot.sessions, EligibleWithTicket(req.scope, Upper(site.upper, req.ticket.value)), row);
      } else if req.plate.Some? && req.plate.value != "" {
        OnlyRowExactly(lot.sessions, EligibleWithPlate(req.scope, NormalizePlate(site.upper, req.plate.value)), row);
      }
    }
  }

  lemma OnlyRowExactly(rows: seq<Session>, p: Session -> bool, row: nat)
    ensures OnlyRow(rows, p) == Success(row) <==>
              row < |rows| && p(rows[row]) && forall i :: 0 <= i < |rows| && p(rows[i]) ==> i == row
  {
    hide First, Count;
    if row < |rows| && p(rows[row]) && forall i :: 0 <= i < |rows| && p(rows[i]) ==> i == row {
      AtMostOneCounted(rows, p);
    }
    if OnlyRow(rows, p) == Success(row) {
      forall i | 0 <= i < |rows| && p(rows[i]) ensures i == row {
        if i != row {
          TwoAreCounted(rows, p, row, i);
        }
      }
    }
  }

  lemma TwoAreCounted(rows: seq<Session>, p: Session -> bool, i: nat, j: nat)
    requires i < |rows| && j < |rows| && i != j && p(rows[i]) && p(rows[j])
    ensures Count(rows, p) > 1
  {
    var k, n := Max(i, j), Min(i, j);
    CountUpTo(rows, p, k);
    CountPositive(rows[..k], p, n);
  }

  lemma {:induction false} CountUpTo(rows: seq<Session>, p: Session -> bool, k: nat)
    requires k < |rows| && p(rows[k])
    ensures Count(rows, p) >= Count(rows[..k], p) + 1
  {
    var n := |rows| - 1;
    if k < n {
      CountUpTo(rows[..n], p, k);
      assert rows[..n][..k] == rows[..k];
    }
  }

  // ---------------------------------------------------------------------------------------
  // Check-out
  // ---------------------------------------------------------------------------------------

  /** Some closed session that the account sees was closed with the key, or came in with it. */
  ghost predicate KeySpent(lot: Lot, req: CheckoutRequest) {
    exists i :: 0 <= i < |lot.sessions| && lot.sessions[i].status in {Completed, Exited}
                && (req.scope.None? || req.scope == Some(lot.sessions[i].building))
                && (req.key in lot.sessions[i].checkoutKeys || lot.sessions[i].checkInKey == req.key)
  }

  /** The way out fits the session: an open outbound lane of its building that the account sees, and the
      type of the vehicle as it came in, or a word on why not. */
  predicate FitsWayOut(site: Site, s: Session, req: CheckoutRequest) {
    && req.exitLane in site.lanes && site.lanes[req.exitLane].active && !site.lanes[req.exitLane].inbound
    && site.lanes[req.exitLane].building == s.building && (req.scope.None? || req.scope == Some(s.building))
    && (req.vehicleTypeOut.None? || req.vehicleTypeOut.value == "" || req.hasOverride
        || Upper(site.upper, req.vehicleTypeOut.value) == Upper(site.upper, s.vehicleType))
  }

  /** A check-out with a fresh key that names one open session, by a way out that fits and with no stale
      fee, completes the session exactly when nothing is due or it is paid on the spot, and otherwise
      holds it for the fee. Any other check-out changes nothing. */
  lemma CheckoutExactly(site: Site, lot: Lot, req: CheckoutRequest, fee: nat)
    requires SessionsSound(site, lot)
    ensures var lot', found := Next(site, lot, Checkout(req, fee)), FindSession(site, lot, req);
            var reply := Decide(site, lot, Checkout(req, fee)).reply;
            if UsableKey(req.key) && !KeySpent(lot, req) && found.Success?
               && FitsWayOut(site, lot.sessions[found.value], req)
               && (req.expectedFee.None? || req.expectedFee.value == fee)
            then
              var s := lot.sessions[found.value];
              var s' := s.(fee := fee, exitLane := Some(req.exitLane), checkoutKeys := s.checkoutKeys + {req.key});
              if fee == 0 || req.paysNow then
                && lot'.sessions == lot.sessions[found.value := s'.(status := Completed)]
                && reply == Left(found.value, fee)
                && forall key :: Occupied(lot', key) ==
                     if key == KeyOf(site, s) && Occupied(lot, key) > 0 then Occupied(lot, key) - 1
                     else Occupied(lot, key)
              else
                && lot' == lot.(sessions := lot.sessions[found.value := s'.(status := PaymentPending)])
                && reply == FeeDue(found.value, fee)
            else lot' == lot && (reply.Refused? || reply.AlreadyClosed?)
  {
    hide First, Upper, NormalizePlate, Count, KeyError;
    KeyErrorExactly(req.key);
    assert First(lot.sessions, ClosedWithKey(req.scope, req.key)).Some? <==> KeySpent(lot, req) by {
      forall i | 0 <= i < |lot.sessions|
        ensures ClosedWithKey(req.scope, req.key)(lot.sessions[i]) <==>
                  && lot.sessions[i].status in {Completed, Exited}
                  && (req.scope.None? || req.scope == Some(lot.sessions[i].building))
                  && (req.key in lot.sessions[i].checkoutKeys || lot.sessions[i].checkInKey == req.key)
      {
      }
    }
  }

  /** Every other answer to a check-out is true as well: what it says is so. */
  lemma OtherDeparturesAreTold(site: Site, lot: Lot, req: CheckoutRequest, fee: nat)
    requires SessionsSound(site, lot)
    ensures var found := FindSession(site, lot, req);
            match Decide(site, lot, Checkout(req, fee)).reply
            case AlreadyClosed(row, charged) =>
              && row < |lot.sessions| && lot.sessions[row].status == Completed && charged == lot.sessions[row].fee
              && (req.key in lot.sessions[row].checkoutKeys || lot.sessions[row].checkInKey == req.key)
              && (req.scope.None? || req.scope == Some(lot.sessions[row].building))
            case Refused(KeyRequired) => forall i :: 0 <= i < |req.key| ==> req.key[i] in " \t\n\r"
            case Refused(KeyTooLong) => |req.key| > 255
            case Refused(SessionNotFound) => found == Failure(SessionNotFound)
            case Refused(DuplicateActiveSessions) => found == Failure(DuplicateActiveSessions)
            case Refused(InvalidSessionStatus) =>
              && req.session.Some? && req.session.value < |lot.sessions|
              && lot.sessions[req.session.value].status == Completed
            case Refused(LaneNotFound) =>
              || req.exitLane !in site.lanes
              || (req.scope.Some? && req.scope.value != site.lanes[req.exitLane].building)
            case Refused(LaneInactive) => req.exitLane in site.lanes && !site.lanes[req.exitLane].active
            case Refused(WrongLaneDirection) => req.exitLane in site.lanes && site.lanes[req.exitLane].inbound
            case Refused(BuildingMismatch) =>
              && found.Success? && req.exitLane in site.lanes
              && site.lanes[req.exitLane].building != lot.sessions[found.value].building
            case Refused(VehicleTypeMismatch) =>
              && found.Success? && req.vehicleTypeOut.Some? && !req.hasOverride
              && Upper(site.upper, req.vehicleTypeOut.value) != Upper(site.upper, lot.sessions[found.value].vehicleType)
            case Refused(FeeChanged) => req.expectedFee.Some? && req.expectedFee.value != fee
            case Left(_, _) => fee == 0 || req.paysNow
            case FeeDue(_, _) => fee > 0 && !req.paysNow
            case _ => false
  {
    hide First, Upper, NormalizePlate, Count, FindSession;
    FindSessionErrors(site, lot, req);
  }

  lemma FindSessionErrors(site: Site, lot: Lot, req: CheckoutRequest)
    ensures var found := FindSession(site, lot, req);
            found.Failure? ==>
              && found.error in {SessionNotFound, DuplicateActiveSessions, InvalidSessionStatus}
              && (found.error == InvalidSessionStatus ==>
                    && req.session.Some? && req.session.value < |lot.sessions|
                    && lot.sessions[req.session.value].status !in {Parked, PaymentPending, Paid})
  {
    hide Upper, NormalizePlate, First, Count;
  }

  /** A recorded payment completes the session that waits for it, at the fee and by the lane it was held
      with; for any other session it changes nothing. */
  lemma PaymentExactly(site: Site, lot: Lot, scope: Option<nat>, row: nat, amount: nat)
    requires SessionsSound(site, lot)
    ensures var lot' := Next(site, lot, RecordPayment(scope, row, amount));
            if row < |lot.sessions| && lot.sessions[row].status == PaymentPending
               && (scope.None? || scope == Some(lot.sessions[row].building))
            then
              && lot'.sessions == lot.sessions[row := lot.sessions[row].(status := Completed)]
              && forall key :: Occupied(lot', key) ==
                   if key == KeyOf(site, lot.sessions[row]) && Occupied(lot, key) > 0 then Occupied(lot, key) - 1
                   else Occupied(lot, key)
            else lot' == lot
  {
    hide Upper, NormalizePlate;
    if row < |lot.sessions| && lot.sessions[row].status == PaymentPending {
      var s := lot.sessions[row];
      assert s.checkoutKeys + {} == s.checkoutKeys;
      assert Closed(s, s.fee, s.exitLane.value, {}) == s.(status := Completed);
    }
  }

  // ---------------------------------------------------------------------------------------
  // Emergency exit
  // ---------------------------------------------------------------------------------------

  /** The request names the vehicle: by its row, else by plate, else by ticket as stored, the latter two in
      the building of the lane. */
  predicate EvacuationNames(site: Site, req: EmergencyRequest, row: nat, s: Session)
    requires req.lane in site.lanes
  {
    if req.session.Some? then req.session == Some(row) && (req.scope.None? || req.scope == Some(s.building))
    else if req.plate.Some? && req.plate.value != "" then
      s.building == site.lanes[req.lane].building && s.plate == Some(NormalizePlate(site.upper, req.plate.value))
    else
      && s.building == site.lanes[req.lane].building
      && req.ticket.Some? && req.ticket.value != "" && s.ticket == req.ticket
  }

  /** An emergency exit by an open lane that the account sees lets out, free of charge, exactly the vehicle in
      the lot that the request names, and leaves every other row alone. */
  lemma EvacuatedExactly(site: Site, lot: Lot, req: EmergencyRequest, row: nat)
    requires SessionsSound(site, lot) && NoDuplicates(lot) && row < |lot.sessions|
    ensures row < |Next(site, lot, EmergencyExit(req)).sessions|
    ensures var s, s' := lot.sessions[row], Next(site, lot, EmergencyExit(req)).sessions[row];
            if req.lane in site.lanes && site.lanes[req.lane].active
               && (req.scope.None? || req.scope == Some(site.lanes[req.lane].building))
               && s.status in {Parked, PaymentPending} && EvacuationNames(site, req, row, s)
            then s' == s.(status := Completed, fee := 0, exitLane := Some(req.lane))
            else s' == s
  {
    hide First, Upper, NormalizePlate, Occupied;
    if req.lane in site.lanes {
      var lane := site.lanes[req.lane];
      var named := EvacuationMatch(site, lane, req);
      var found := First(lot.sessions, named);
      if req.session.None? && named(lot.sessions[row]) {
        LotLimits.OnlyOne(lot, found.value, row);
      }
    }
  }

  // ---------------------------------------------------------------------------------------
  // Adjustment and reconciliation
  // ---------------------------------------------------------------------------------------

  /** A manual adjustment moves the counter of the upper-cased type by the amount, and logs it, exactly when
      the amount is not zero and the counter stays non-negative; otherwise nothing changes. */
  lemma AdjustedExactly(site: Site, lot: Lot, building: Option<nat>, spelling: string, delta: int)
    ensures var key := CounterKey(building, Upper(site.upper, spelling));
            var lot' := Next(site, lot, AdjustCounter(building, spelling, delta));
            if delta != 0 && Occupied(lot, key) + delta >= 0 then
              && lot'.sessions == lot.sessions && lot'.ledger == lot.ledger + [CounterEvent(key, delta, None)]
              && forall k :: Occupied(lot', k) == Occupied(lot, k) + if k == key then delta else 0
            else lot' == lot
  {
    hide Upper;
  }

  /** The report of a reconciliation has a drift for exactly the vehicle types whose counter differs from the
      count that was read, with both numbers. */
  lemma DriftsExactly(site: Site, lot: Lot, area: Area, order: seq<string>, d: Drift)
    ensures d in Drifts(site, lot, area, order) <==>
              && d.vehicleType in {"CAR", "MOTORBIKE", "BICYCLE"}
              && d.active == ActiveCount(site, lot, area, order, d.vehicleType)
              && d.occupied == Occupied(lot, CounterKey(area.building, d.vehicleType)) != d.active
  {
    hide ActiveCount, Occupied;
  }

  /** Reconciliation without correction, or without a drift, changes nothing but reports. */
  lemma ReportChangesNothing(site: Site, lot: Lot, area: Area, order: seq<string>)
    ensures Next(site, lot, ReconcileCounters(area, false, order)) == lot
    ensures Decide(site, lot, ReconcileCounters(area, false, order)).reply
         == Report(Drifts(site, lot, area, order), false)
  {
    hide ActiveCount, Occupied;
  }

  /** Of the groups that become the same type in upper case, the last one counts. */
  lemma LastGroupCounts(site: Site, lot: Lot, area: Area, order: seq<string>, vehicleType: string, i: nat)
    requires i < |order| && order[i] != "" && Upper(site.upper, order[i]) == vehicleType
    requires forall j :: i < j < |order| && order[j] != "" ==> Upper(site.upper, order[j]) != vehicleType
    ensures ActiveCount(site, lot, area, order, vehicleType) == Count(lot.sessions, ParkedSpelled(area, order[i]))
  {
    hide Count, Upper;
    LastSpellingIs(site, order, vehicleType, i);
  }

  lemma {:induction false} LastSpellingIs(site: Site, order: seq<string>, vehicleType: string, i: nat)
    requires i < |order| && order[i] != "" && Upper(site.upper, order[i]) == vehicleType
    requires forall j :: i < j < |order| && order[j] != "" ==> Upper(site.upper, order[j]) != vehicleType
    ensures LastSpelling(site, order, vehicleType) == Some(order[i])
  {
    hide Upper;
    if i < |order| - 1 {
      LastSpellingIs(site, order[..|order| - 1], vehicleType, i);
    }
  }
}
