/** The parking services as they update the database step by step; each one is tied to what
    LotModel decides for it. */
module ParkingDatabase {
  import opened Common
  import opened Plates
  import opened Capacity
  import opened LotModel

  class Database {
    var sessions: seq<Session>
    var counters: map<CounterKey, int>
    var ledger: seq<CounterEvent>

    function View(): Lot
      reads this
    {
      Lot(sessions, counters, ledger)
    }

    constructor ()
      ensures View() == EMPTY_LOT
    {
      sessions := [];
      counters := map[];
      ledger := [];
    }

    /** Undoes a transaction. */
    method Rollback(saved: Lot)
      modifies this
      ensures View() == saved
    {
      sessions := saved.sessions;
      counters := saved.counters;
      ledger := saved.ledger;
    }

    // -------------------------------------------------------------------------------------
    // Counter service
    // -------------------------------------------------------------------------------------

    method GetOrCreateCounter(key: CounterKey) returns (occupied: int)
      modifies this`counters
      ensures counters == old(counters)[key := occupied]
      ensures occupied == Occupied(old(View()), key)
    {
      if key !in counters {
        counters := counters[key := 0];
      }
      occupied := counters[key];
    }

    /** Guarded increment: succeeds exactly below the limit of the class, and logs what it did. */
    method IncrementAtomic(site: Site, key: CounterKey, cls: CustomerClass, session: nat) returns (ok: bool)
      modifies this
      ensures ok <==> Occupied(old(View()), key) < LimitAt(site, key, cls)
      ensures ok ==> View() == Logged(old(View()), key, Occupied(old(View()), key) + 1, 1, Some(session))
      ensures !ok ==> sessions == old(sessions) && ledger == old(ledger)
    {
      var occupied := GetOrCreateCounter(key);
      if occupied >= LimitAt(site, key, cls) {
        return false;
      }
      counters := counters[key := occupied + 1];
      ledger := ledger + [CounterEvent(key, 1, Some(session))];
      ok := true;
    }

    method DecrementAtomic(key: CounterKey, session: nat)
      modifies this
      ensures View() == Decremented(old(View()), key, session)
    {
      var occupied := GetOrCreateCounter(key);
      if occupied > 0 {
        counters := counters[key := occupied - 1];
      }
      ledger := ledger + [CounterEvent(key, -1, Some(session))];
    }

    /** Adds to a counter through the ledger; refuses a zero delta and a negative result. */
    method ChangeCounter(key: CounterKey, delta: int) returns (error: Option<LotError>)
      modifies this
      ensures delta == 0 ==> error == Some(InvalidDelta) && View() == old(View())
      ensures delta != 0 && Occupied(old(View()), key) + delta < 0 ==>
                error == Some(NegativeOccupied) && sessions == old(sessions) && ledger == old(ledger)
      ensures delta != 0 && Occupied(old(View()), key) + delta >= 0 ==>
                && error == None
                && View() == Logged(old(View()), key, Occupied(old(View()), key) + delta, delta, None)
    {
      if delta == 0 {
        return Some(InvalidDelta);
      }
      var occupied := GetOrCreateCounter(key);
      var value := occupied + delta;
      if value < 0 {
        return Some(NegativeOccupied);
      }
      counters := counters[key := value];
      ledger := ledger + [CounterEvent(key, delta, None)];
      error := None;
    }

    method AdjustCounter(site: Site, building: Option<nat>, spelling: string, delta: int) returns (reply: Reply)
      modifies this
      ensures reply == DecideAdjust(site, old(View()), building, spelling, delta).reply
      ensures View() == Apply(site, old(View()), DecideAdjust(site, old(View()), building, spelling, delta).effect)
    {
      var saved := View();
      var error := ChangeCounter(KeyFor(site, building, spelling), delta);
      if error.Some? {
        Rollback(saved);
        return Refused(error.value);
      }
      reply := Adjusted;
    }

    method CompensateOfflineSession(site: Site, building: Option<nat>, spelling: string) returns (reply: Reply)
      modifies this
      ensures reply == DecideAdjust(site, old(View()), building, spelling, 1).reply
      ensures View() == Apply(site, old(View()), DecideAdjust(site, old(View()), building, spelling, 1).effect)
    {
      reply := AdjustCounter(site, building, spelling, 1);
    }

    /** The availability board, one entry for each vehicle type. */
    method GetAvailability(site: Site, building: Option<nat>) returns (board: seq<Availability>)
      ensures |board| == 3
      ensures forall i :: 0 <= i < 3 ==>
                var key := CounterKey(building, VEHICLE_TYPES[i]);
                board[i] == AvailabilityOf(ConfigAt(site, key), Occupied(View(), key))
    {
      board := [];
      for i := 0 to 3
        invariant |board| == i
        invariant forall k :: 0 <= k < i ==>
                    var key := CounterKey(building, VEHICLE_TYPES[k]);
                    board[k] == AvailabilityOf(ConfigAt(site, key), Occupied(View(), key))
      {
        var key := CounterKey(building, VEHICLE_TYPES[i]);
        var occupied := if key in counters then counters[key] else 0;
        board := board + [AvailabilityOf(ConfigAt(site, key), occupied)];
      }
    }

    // -------------------------------------------------------------------------------------
    // Check-in
    // -------------------------------------------------------------------------------------

    method ProcessCheckIn(site: Site, req: CheckInRequest, outside: Outside) returns (reply: Reply)
      modifies this
      ensures reply == DecideCheckIn(site, old(View()), req, outside).reply
      ensures View() == Apply(site, old(View()), DecideCheckIn(site, old(View()), req, outside).effect)
    {
      hide First, NormalizePlate, Upper, LimitAt;
      if KeyError(req.key).Some? {
        return Refused(KeyError(req.key).value);
      }
      if req.bodyKey.Some? && req.bodyKey.value != req.key {
        return Refused(KeyMismatch);
      }
      var plate := PlateOf(site, req);
      if plate.Some? && !(3 <= |plate.value| <= 50) {
        return Refused(InvalidPlate);
      }
      if !LaneSeen(site, req.scope, req.lane) {
        return Refused(LaneNotFound);
      }
      var lane := site.lanes[req.lane];
      var s := NewSession(site, lane, req);
      var existing := First(sessions, WithCheckInKey(lane.building, req.key));
      if existing.Some? {
        if sessions[existing.value].fingerprint != s.fingerprint {
          return Refused(KeyReused);
        }
        return Replayed(existing.value);
      }
      if !lane.active {
        return Refused(LaneInactive);
      }
      if !lane.inbound {
        return Refused(WrongLaneDirection);
      }
      var unread := DetectionError(site, lane, req);
      if unread.Some? {
        return Refused(unread.value);
      }
      var denied := AccessError(site, View(), lane, req, outside);
      if denied.Some? {
        return Refused(denied.value);
      }
      var duplicate := DuplicateError(View(), lane.building, plate, req.ticket);
      if duplicate.Some? {
        return Refused(duplicate.value);
      }
      if !outside.ready {
        return Refused(NotReady);
      }
      reply := SaveAndCount(site, s);
    }

    /** The transaction of a check-in: the row, then the counter; the unique indexes or a full
        counter roll it back. */
    method SaveAndCount(site: Site, s: Session) returns (reply: Reply)
      modifies this
      ensures var clash := First(old(sessions), PlateConflict(s.building, s.plate)).Some?
                           || First(old(sessions), TicketConflict(s.ticket)).Some?;
              var key := KeyOf(site, s);
              if clash then reply == Refused(ConstraintViolated) && View() == old(View())
              else if Occupied(old(View()), key) >= LimitAt(site, key, s.cls) then
                reply == Refused(CapacityFull) && View() == old(View())
              else reply == CheckedIn(|old(sessions)|) && View() == Apply(site, old(View()), Admit(s))
    {
      hide First, Upper, LimitAt;
      var saved := View();
      if First(sessions, PlateConflict(s.building, s.plate)).Some? {
        return Refused(ConstraintViolated);
      }
      if First(sessions, TicketConflict(s.ticket)).Some? {
        return Refused(ConstraintViolated);
      }
      var row := |sessions|;
      sessions := sessions + [s];
      var ok := IncrementAtomic(site, KeyOf(site, s), s.cls, row);
      if !ok {
        Rollback(saved);
        return Refused(CapacityFull);
      }
      reply := CheckedIn(row);
    }

    // -------------------------------------------------------------------------------------
    // Check-out, payment and emergency exit
    // -------------------------------------------------------------------------------------

    method ProcessCheckout(site: Site, req: CheckoutRequest, fee: nat) returns (reply: Reply)
      modifies this
      ensures reply == DecideCheckout(site, old(View()), req, fee).reply
      ensures View() == Apply(site, old(View()), DecideCheckout(site, old(View()), req, fee).effect)
    {
      hide First, NormalizePlate, Upper, Count;
      if KeyError(req.key).Some? {
        return Refused(KeyError(req.key).value);
      }
      var done := First(sessions, ClosedWithKey(req.scope, req.key));
      if done.Some? {
        return AlreadyClosed(done.value, sessions[done.value].fee);
      }
      var found := FindSession(site, View(), req);
      if found.Failure? {
        return Refused(found.error);
      }
      var row := found.value;
      if sessions[row].status == Paid {
        var due := sessions[row].fee;
        CompleteSession(site, row, due, req.exitLane, {req.key});
        return Left(row, due);
      }
      var error := ExitError(site, sessions[row], req, fee);
      if error.Some? {
        return Refused(error.value);
      }
      if fee == 0 || req.paysNow {
        CompleteSession(site, row, fee, req.exitLane, {req.key});
        return Left(row, fee);
      }
      var s := sessions[row];
      s := s.(status := PaymentPending);
      s := s.(fee := fee);
      s := s.(exitLane := Some(req.exitLane));
      if req.key !in s.checkoutKeys {
        s := s.(checkoutKeys := s.checkoutKeys + {req.key});
      }
      assert s.checkoutKeys == sessions[row].checkoutKeys + {req.key};
      sessions := sessions[row := s];
      reply := FeeDue(row, fee);
    }

    /** Closes a session: first marked as exited, then completed, then taken off its counter. */
    method CompleteSession(site: Site, row: nat, fee: int, lane: nat, keys: set<string>)
      requires row < |sessions|
      modifies this
      ensures View() == Apply(site, old(View()), Close(row, fee, lane, keys))
    {
      hide Upper;
      var s := sessions[row];
      var key := KeyOf(site, s);
      sessions := sessions[row := s.(status := Exited, exitLane := Some(lane), fee := fee,
                                     checkoutKeys := s.checkoutKeys + keys)];
      sessions := sessions[row := sessions[row].(status := Completed)];
      DecrementAtomic(key, row);
    }

    method RecordPaymentFor(site: Site, scope: Option<nat>, row: nat, amount: nat) returns (reply: Reply)
      modifies this
      ensures reply == DecidePayment(old(View()), scope, row, amount).reply
      ensures View() == Apply(site, old(View()), DecidePayment(old(View()), scope, row, amount).effect)
    {
      hide Upper;
      if row >= |sessions| || !Visible(scope, sessions[row].building) {
        return Refused(SessionNotFound);
      }
      var s := sessions[row];
      if s.status !in {PaymentPending, Paid} {
        return Refused(InvalidSessionStatus);
      }
      var saved := View();
      sessions := sessions[row := s.(status := Paid)];
      if s.exitLane.None? {
        Rollback(saved);
        return Refused(ExitLaneMissing);
      }
      CompleteSession(site, row, s.fee, s.exitLane.value, {});
      reply := Left(row, s.fee);
    }

    method OpenEmergencyExit(site: Site, req: EmergencyRequest) returns (reply: Reply)
      modifies this
      ensures reply == DecideEmergency(site, old(View()), req).reply
      ensures View() == Apply(site, old(View()), DecideEmergency(site, old(View()), req).effect)
    {
      hide First, NormalizePlate, Upper;
      if !LaneSeen(site, req.scope, req.lane) {
        return Refused(LaneNotFound);
      }
      if !site.lanes[req.lane].active {
        return Refused(LaneInactive);
      }
      var found := req.session;
      if found.None? {
        found := First(sessions, EvacuationMatch(site, site.lanes[req.lane], req));
      }
      if found.Some? && found.value < |sessions| && Visible(req.scope, sessions[found.value].building)
         && Active(sessions[found.value].status) {
        CompleteSession(site, found.value, 0, req.lane, {});
        return Left(found.value, 0);
      }
      reply := BarrierOpened;
    }

    // -------------------------------------------------------------------------------------
    // Reconciliation
    // -------------------------------------------------------------------------------------

    /** Compares each counter with its active count, creating the counters that are missing. */
    method CheckDiscrepancies(site: Site, area: Area, order: seq<string>) returns (drifts: seq<Drift>)
      modifies this`counters
      ensures drifts == Drifts(site, old(View()), area, order)
      ensures View() == WithRows(old(View()), area.building)
    {
      hide ActiveCount;
      drifts := [];
      for i := 0 to 3
        invariant counters == RowsUpTo(old(View()), area.building, i)
        invariant forall key :: Occupied(View(), key) == Occupied(old(View()), key)
        invariant drifts == DriftsUpTo(site, old(View()), area, order, i)
      {
        var occupied := GetOrCreateCounter(CounterKey(area.building, VEHICLE_TYPES[i]));
        var active := ActiveCount(site, View(), area, order, VEHICLE_TYPES[i]);
        ActiveCountReadsSessions(site, old(View()), View(), area, order, VEHICLE_TYPES[i]);
        if active != occupied {
          drifts := drifts + [Drift(VEHICLE_TYPES[i], occupied, active)];
        }
      }
      DriftsInFull(site, old(View()), area, order);
    }

    method ReconcileAndAdjust(site: Site, area: Area, autoCorrect: bool, order: seq<string>)
      returns (reply: Reply)
      modifies this
      ensures reply == DecideReconcile(site, old(View()), area, autoCorrect, order).reply
      ensures View() == Apply(site, old(View()), DecideReconcile(site, old(View()), area, autoCorrect, order).effect)
    {
      hide ActiveCount, Reconciled, Drifts, AdjustAll, WithRows;
      var saved := View();
      var drifts := CheckDiscrepancies(site, area, order);
      if drifts == [] || !autoCorrect {
        Rollback(saved);
        return Report(drifts, false);
      }
      ghost var start := View();
      AdjustAllOfNone(start, area.building);
      assert drifts[..0] == [];
      for i := 0 to |drifts|
        invariant View() == AdjustAll(start, area.building, drifts[..i])
      {
        var d := drifts[i];
        DriftIsCurrent(site, saved, area, order, i);
        AdjustAllStep(start, area.building, drifts, i);
        var error := ChangeCounter(CounterKey(area.building, d.vehicleType), d.active - d.occupied);
        assert error.None?;
      }
      assert drifts[..|drifts|] == drifts;
      AdjustAllReconciles(site, saved, area, order);
      reply := Report(drifts, true);
    }
  }

  function RowsUpTo(lot: Lot, building: Option<nat>, n: nat): map<CounterKey, int>
    requires n <= 3
  {
    if n == 0 then lot.counters
    else
      var key := CounterKey(building, VEHICLE_TYPES[n - 1]);
      RowsUpTo(lot, building, n - 1)[key := Occupied(lot, key)]
  }

  function WithRows(lot: Lot, building: Option<nat>): Lot { lot.(counters := RowsUpTo(lot, building, 3)) }

  function DriftsUpTo(site: Site, lot: Lot, area: Area, order: seq<string>, n: nat): seq<Drift>
    requires n <= 3
  {
    if n == 0 then []
    else
      DriftsUpTo(site, lot, area, order, n - 1)
      + DriftOf(lot, area.building, VEHICLE_TYPES[n - 1], ActiveCount(site, lot, area, order, VEHICLE_TYPES[n - 1]))
  }

  lemma DriftsInFull(site: Site, lot: Lot, area: Area, order: seq<string>)
    ensures DriftsUpTo(site, lot, area, order, 3) == Drifts(site, lot, area, order)
  {
    hide ActiveCount, DriftOf;
    assert DriftsUpTo(site, lot, area, order, 1)
        == DriftOf(lot, area.building, "CAR", ActiveCount(site, lot, area, order, "CAR"));
  }

  /** Correcting the reported drifts one after the other. */
  function AdjustAll(lot: Lot, building: Option<nat>, drifts: seq<Drift>): Lot {
    if drifts == [] then lot
    else
      var n := |drifts| - 1;
      var before := AdjustAll(lot, building, drifts[..n]);
      var key := CounterKey(building, drifts[n].vehicleType);
      var delta := drifts[n].active - drifts[n].occupied;
      Logged(before, key, Occupied(before, key) + delta, delta, None)
  }

  lemma {:induction false} AdjustAllConcat(lot: Lot, building: Option<nat>, a: seq<Drift>, b: seq<Drift>)
    ensures AdjustAll(lot, building, a + b) == AdjustAll(AdjustAll(lot, building, a), building, b)
  {
    if b == [] {
      assert a + b == a;
    } else {
      var n := |b| - 1;
      AdjustAllConcat(lot, building, a, b[..n]);
      assert (a + b)[..|a + b| - 1] == a + b[..n];
    }
  }

  /** A drift of one type corrects that counter, and no drift leaves it where it is. */
  lemma AdjustOneType(lot: Lot, now: Lot, building: Option<nat>, v: string, active: nat)
    requires var key := CounterKey(building, v); key in now.counters && Occupied(now, key) == Occupied(lot, key)
    ensures AdjustAll(now, building, DriftOf(lot, building, v, active))
         == AdjustedTo(now, CounterKey(building, v), active)
  {
    var key := CounterKey(building, v);
    if Occupied(lot, key) == active {
      assert now.counters[key := active] == now.counters;
    } else {
      var d := DriftOf(lot, building, v, active);
      assert d[..0] == [] && AdjustAll(now, building, d[..0]) == now;
    }
  }

  /** Two states that differ only in which counters have a row. */
  ghost predicate Alike(l: Lot, r: Lot) {
    && l.sessions == r.sessions && l.ledger == r.ledger
    && r.counters.Keys <= l.counters.Keys
    && forall key :: Occupied(l, key) == Occupied(r, key)
  }

  lemma AdjustedToAlike(l: Lot, r: Lot, key: CounterKey, target: int)
    requires Alike(l, r)
    ensures Alike(AdjustedTo(l, key, target), AdjustedTo(r, key, target))
    ensures AdjustedTo(l, key, target).counters.Keys == l.counters.Keys + {key}
    ensures AdjustedTo(r, key, target).counters.Keys == r.counters.Keys + {key}
  {
    var l', r' := AdjustedTo(l, key, target), AdjustedTo(r, key, target);
    forall k ensures Occupied(l', k) == Occupied(r', k) {
      assert Occupied(l, k) == Occupied(r, k);
    }
  }

  lemma AlikeWithSameRows(l: Lot, r: Lot)
    requires Alike(l, r) && l.counters.Keys == r.counters.Keys
    ensures l == r
  {
    forall k | k in l.counters ensures l.counters[k] == r.counters[k] {
      assert Occupied(l, k) == Occupied(r, k);
    }
    assert l.counters == r.counters;
  }

  lemma RowsAreAlike(lot: Lot, building: Option<nat>)
    ensures Alike(WithRows(lot, building), lot)
    ensures WithRows(lot, building).counters.Keys
         == lot.counters.Keys
            + {CounterKey(building, "CAR"), CounterKey(building, "MOTORBIKE"), CounterKey(building, "BICYCLE")}
  {
    var c0 := RowsUpTo(lot, building, 0);
    var c1 := RowsUpTo(lot, building, 1);
    var c2 := RowsUpTo(lot, building, 2);
    assert c0 == lot.counters;
    assert VEHICLE_TYPES[0] == "CAR" && VEHICLE_TYPES[1] == "MOTORBIKE" && VEHICLE_TYPES[2] == "BICYCLE";
    assert c1 == lot.counters[CounterKey(building, "CAR") := Occupied(lot, CounterKey(building, "CAR"))];
    assert c2 == c1[CounterKey(building, "MOTORBIKE") := Occupied(lot, CounterKey(building, "MOTORBIKE"))];
  }

  lemma OtherCountersStay(lot: Lot, key: CounterKey, target: int, other: CounterKey)
    requires other != key
    ensures Occupied(AdjustedTo(lot, key, target), other) == Occupied(lot, other)
    ensures other in lot.counters ==> other in AdjustedTo(lot, key, target).counters
  {
  }

  lemma TypesDiffer()
    ensures "CAR" != "MOTORBIKE" && "CAR" != "BICYCLE" && "MOTORBIKE" != "BICYCLE"
  {
    assert "CAR"[0] == 'C' && "MOTORBIKE"[0] == 'M' && "BICYCLE"[0] == 'B';
  }

  /** The state after the corrections so far, seen type by type. */
  lemma AdjustInThree(lot: Lot, building: Option<nat>, c: nat, m: nat, b: nat)
    ensures var car, moto, bike :=
              CounterKey(building, "CAR"), CounterKey(building, "MOTORBIKE"), CounterKey(building, "BICYCLE");
            var start := WithRows(lot, building);
            var dc, dm, db := DriftOf(lot, building, "CAR", c), DriftOf(lot, building, "MOTORBIKE", m),
                              DriftOf(lot, building, "BICYCLE", b);
            && AdjustAll(start, building, dc) == AdjustedTo(start, car, c)
            && AdjustAll(start, building, dc + dm) == AdjustedTo(AdjustedTo(start, car, c), moto, m)
            && AdjustAll(start, building, dc + dm + db)
               == AdjustedTo(AdjustedTo(AdjustedTo(start, car, c), moto, m), bike, b)
            && Occupied(start, car) == Occupied(lot, car)
            && Occupied(AdjustedTo(start, car, c), moto) == Occupied(lot, moto)
            && Occupied(AdjustedTo(AdjustedTo(start, car, c), moto, m), bike) == Occupied(lot, bike)
  {
    hide AdjustAll, WithRows, DriftOf, AdjustedTo;
    var car, moto, bike :=
      CounterKey(building, "CAR"), CounterKey(building, "MOTORBIKE"), CounterKey(building, "BICYCLE");
    var start := WithRows(lot, building);
    var dc, dm, db := DriftOf(lot, building, "CAR", c), DriftOf(lot, building, "MOTORBIKE", m),
                      DriftOf(lot, building, "BICYCLE", b);
    TypesDiffer();
    RowsAreAlike(lot, building);
    AdjustOneType(lot, start, building, "CAR", c);
    var l1 := AdjustedTo(start, car, c);
    OtherCountersStay(start, car, c, moto);
    OtherCountersStay(start, car, c, bike);
    AdjustAllConcat(start, building, dc, dm);
    AdjustOneType(lot, l1, building, "MOTORBIKE", m);
    OtherCountersStay(l1, moto, m, bike);
    AdjustAllConcat(start, building, dc + dm, db);
    AdjustOneType(lot, AdjustedTo(l1, moto, m), building, "BICYCLE", b);
  }

  /** Each reported drift is still right when its turn comes, so its correction is never refused. */
  lemma DriftIsCurrent(site: Site, lot: Lot, area: Area, order: seq<string>, i: nat)
    requires i < |Drifts(site, lot, area, order)|
    ensures var drifts := Drifts(site, lot, area, order);
            var d := drifts[i];
            && d.active != d.occupied
            && Occupied(AdjustAll(WithRows(lot, area.building), area.building, drifts[..i]), 
               CounterKey(area.building, d.vehicleType))
               == d.occupied
  {
    hide AdjustAll, WithRows, AdjustedTo, Occupied, ActiveCount;
    var c := ActiveCount(site, lot, area, order, "CAR");
    var m := ActiveCount(site, lot, area, order, "MOTORBIKE");
    var b := ActiveCount(site, lot, area, order, "BICYCLE");
    AdjustInThree(lot, area.building, c, m, b);
    var dc, dm, db := DriftOf(lot, area.building, "CAR", c), DriftOf(lot, area.building, "MOTORBIKE", m),
                      DriftOf(lot, area.building, "BICYCLE", b);
    var drifts := Drifts(site, lot, area, order);
    assert drifts == dc + dm + db;
    if i < |dc| {
      assert drifts[..i] == [] && drifts[i] == dc[0];
      AdjustAllOfNone(WithRows(lot, area.building), area.building);
    } else if i < |dc| + |dm| {
      assert drifts[..i] == dc && drifts[i] == dm[0];
    } else {
      assert drifts[..i] == dc + dm && drifts[i] == db[0];
    }
  }

  lemma AdjustAllStep(lot: Lot, building: Option<nat>, drifts: seq<Drift>, i: nat)
    requires i < |drifts|
    ensures var before := AdjustAll(lot, building, drifts[..i]);
            var key := CounterKey(building, drifts[i].vehicleType);
            var delta := drifts[i].active - drifts[i].occupied;
            (AdjustAll(lot, building, drifts[..i + 1])
             == Logged(before, key, Occupied(before, key) + delta, delta, None))
  {
    assert drifts[..i + 1][..i] == drifts[..i];
  }

  lemma AdjustAllOfNone(lot: Lot, building: Option<nat>)
    ensures AdjustAll(lot, building, []) == lot
  {
  }

  lemma AdjustAllReconciles(site: Site, lot: Lot, area: Area, order: seq<string>)
    ensures AdjustAll(WithRows(lot, area.building), area.building, Drifts(site, lot, area, order))
         == Reconciled(lot, area.building, ActiveCount(site, lot, area, order, "CAR"),
                       ActiveCount(site, lot, area, order, "MOTORBIKE"),
                       ActiveCount(site, lot, area, order, "BICYCLE"))
  {
    hide AdjustAll, WithRows, AdjustedTo, Occupied, ActiveCount, DriftOf;
    var c := ActiveCount(site, lot, area, order, "CAR");
    var m := ActiveCount(site, lot, area, order, "MOTORBIKE");
    var b := ActiveCount(site, lot, area, order, "BICYCLE");
    var car, moto, bike :=
      CounterKey(area.building, "CAR"), CounterKey(area.building, "MOTORBIKE"), CounterKey(area.building, "BICYCLE");
    AdjustInThree(lot, area.building, c, m, b);
    RowsAreAlike(lot, area.building);
    var l0, r0 := WithRows(lot, area.building), lot;
    AdjustedToAlike(l0, r0, car, c);
    var l1, r1 := AdjustedTo(l0, car, c), AdjustedTo(r0, car, c);
    AdjustedToAlike(l1, r1, moto, m);
    var l2, r2 := AdjustedTo(l1, moto, m), AdjustedTo(r1, moto, m);
    AdjustedToAlike(l2, r2, bike, b);
    AlikeWithSameRows(AdjustedTo(l2, bike, b), AdjustedTo(r2, bike, b));
  }
}
