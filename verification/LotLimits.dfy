/** Class limits, reconciliation and repeated requests over runs of the parking services. */
module LotLimits {
  import opened Common
  import opened Plates
  import opened Capacity
  import opened LotModel
  import opened LotRuns

  // ---------------------------------------------------------------------------------------
  // What the class limits achieve
  // ---------------------------------------------------------------------------------------

  function VisitorAt(site: Site, key: CounterKey): Session -> bool {
    (s: Session) => Active(s.status) && KeyOf(site, s) == key && s.cls == Visitor
  }

  function MemberAt(site: Site, key: CounterKey): Session -> bool {
    (s: Session) => Active(s.status) && KeyOf(site, s) == key && s.cls != Visitor
  }

  function Visitors(site: Site, lot: Lot, key: CounterKey): nat { Count(lot.sessions, VisitorAt(site, key)) }

  /** The residents and staff in the lot. */
  function Members(site: Site, lot: Lot, key: CounterKey): nat { Count(lot.sessions, MemberAt(site, key)) }

  lemma VisitorsAndMembers(site: Site, lot: Lot, key: CounterKey)
    ensures InLot(site, lot, key) == Visitors(site, lot, key) + Members(site, lot, key)
  {
    CountSplit(lot.sessions, InLotAt(site, key), VisitorAt(site, key), MemberAt(site, key));
  }

  ghost predicate VisitorsWithinLimit(site: Site, lot: Lot) {
    forall key :: Visitors(site, lot, key) <= Max(0, LimitAt(site, key, Visitor))
  }

  lemma VisitorsAfter(site: Site, lot: Lot, e: Effect, key: CounterKey)
    requires Legal(site, lot, e) && OrdinaryEffect(e)
    ensures Visitors(site, Apply(site, lot, e), key)
         <= Visitors(site, lot, key)
            + if e.Admit? && KeyOf(site, e.session) == key && e.session.cls == Visitor then 1 else 0
  {
    hide Count, Upper, LimitAt;
    var p := VisitorAt(site, key);
    match e
    case Admit(s) => CountAppend(lot.sessions, p, s);
    case Hold(row, fee, lane, k) => CountUpdate(lot.sessions, p, row, Held(lot.sessions[row], fee, lane, k));
    case Close(row, fee, lane, keys) =>
      CountUpdate(lot.sessions, p, row, Closed(lot.sessions[row], fee, lane, keys));
    case _ =>
  }

  lemma StepKeepsVisitorLimit(site: Site, lot: Lot, e: Effect)
    requires Legal(site, lot, e) && OrdinaryEffect(e) && Balanced(site, lot)
    requires VisitorsWithinLimit(site, lot)
    ensures VisitorsWithinLimit(site, Apply(site, lot, e))
  {
    hide Count, Upper, LimitAt, Apply, Occupied, InLot, Visitors, Members;
    forall key
      ensures Visitors(site, Apply(site, lot, e), key) <= Max(0, LimitAt(site, key, Visitor))
    {
      VisitorsAfter(site, lot, e, key);
      VisitorsAndMembers(site, lot, key);
      assert Occupied(lot, key) == InLot(site, lot, key);
    }
  }

  /** On every run of ordinary steps the visitors in the lot never exceed the safe capacity less the
      reserved quotas, as those stand after defaults. */
  lemma {:induction false} VisitorsStayWithinLimit(site: Site, steps: seq<Step>, key: CounterKey)
    requires SiteValid(site) && AllOrdinary(steps)
    ensures VisitorsWithinLimit(site, Run(site, EMPTY_LOT, steps))
    ensures var cfg := ConfigAt(site, key);
            Visitors(site, Run(site, EMPTY_LOT, steps), key) <= cfg.safe - (cfg.residentQuota + cfg.staffQuota)
  {
    if steps != [] {
      var n := |steps| - 1;
      var before := Run(site, EMPTY_LOT, steps[..n]);
      VisitorsStayWithinLimit(site, steps[..n], key);
      EmptyLotIsBalanced(site);
      CountersCountVehicles(site, EMPTY_LOT, steps[..n]);
      DecisionsAreLegal(site, before, steps[n]);
      StepKeepsVisitorLimit(site, before, Decide(site, before, steps[n]).effect);
    }
    EntryIsAccepted(site, key);
    assert Visitors(site, Run(site, EMPTY_LOT, steps), key) <= Max(0, LimitAt(site, key, Visitor));
  }

  lemma EntryIsAccepted(site: Site, key: CounterKey)
    requires SiteValid(site)
    ensures var cfg := ConfigAt(site, key);
            && 0 <= cfg.residentQuota + cfg.staffQuota <= cfg.safe <= cfg.physical
            && LimitAt(site, key, Visitor) == cfg.safe - (cfg.residentQuota + cfg.staffQuota) >= 0
            && LimitAt(site, key, Resident) == LimitAt(site, key, Staff) == cfg.physical
  {
    SettingsAreOrdered(key.vehicleType,
                       if key.building.Some? && key in site.settings then Some(site.settings[key]) else None);
  }

  /** After every run of ordinary steps, no resident and no member of staff is refused for capacity
      while fewer of them are in the lot than the physical capacity less the visitor limit. */
  lemma MembersAlwaysFit(site: Site, steps: seq<Step>, key: CounterKey, req: CheckInRequest, outside: Outside)
    requires SiteValid(site) && AllOrdinary(steps) && req.cls != Visitor
    requires req.lane in site.lanes && key == KeyFor(site, Some(site.lanes[req.lane].building), TypeOf(req))
    requires Members(site, Run(site, EMPTY_LOT, steps), key)
             < LimitAt(site, key, Resident) - LimitAt(site, key, Visitor)
    ensures Occupied(Run(site, EMPTY_LOT, steps), key) < LimitAt(site, key, req.cls)
    ensures DecideCheckIn(site, Run(site, EMPTY_LOT, steps), req, outside).reply != Refused(CapacityFull)
  {
    hide Count, Upper, Run, Occupied, InLot, Visitors, Members;
    var lot := Run(site, EMPTY_LOT, steps);
    VisitorsStayWithinLimit(site, steps, key);
    EmptyLotIsBalanced(site);
    CountersCountVehicles(site, EMPTY_LOT, steps);
    VisitorsAndMembers(site, lot, key);
    EntryIsAccepted(site, key);
    assert Occupied(lot, key) == InLot(site, lot, key);
  }

  // ---------------------------------------------------------------------------------------
  // Reconciliation
  // ---------------------------------------------------------------------------------------

  function ParkedAt(site: Site, key: CounterKey): Session -> bool {
    (s: Session) => s.status == Parked && KeyOf(site, s) == key
  }

  function WaitingAt(site: Site, key: CounterKey): Session -> bool {
    (s: Session) => s.status == PaymentPending && KeyOf(site, s) == key
  }

  /** All parked vehicles of a counter are stored under the same spelling of their type. */
  ghost predicate OneSpelling(site: Site, lot: Lot, key: CounterKey) {
    forall i, j :: 0 <= i < j < |lot.sessions|
                   && ParkedAt(site, key)(lot.sessions[i]) && ParkedAt(site, key)(lot.sessions[j]) ==>
      lot.sessions[i].vehicleType == lot.sessions[j].vehicleType
  }

  /** The account sees the rows of the building. */
  predicate Sees(area: Area) { area.scope.None? || area.scope == area.building }

  lemma ParkedIsGrouped(site: Site, lot: Lot, area: Area, order: seq<string>, row: nat)
    requires Groups(lot, area, order) && Sees(area) && row < |lot.sessions|
    requires lot.sessions[row].status == Parked && Some(lot.sessions[row].building) == area.building
    ensures lot.sessions[row].vehicleType in order
  {
    CountPositive(lot.sessions, ParkedSpelled(area, lot.sessions[row].vehicleType), row);
  }

  lemma UnseenCountNothing(lot: Lot, area: Area, v: string)
    requires !Sees(area)
    ensures Count(lot.sessions, ParkedSpelled(area, v)) == 0
  {
    NoneCounted(lot.sessions, ParkedSpelled(area, v));
  }

  /** The parked vehicles of a counter that are stored under another spelling. */
  function OtherSpelling(site: Site, key: CounterKey, spelling: string): Session -> bool {
    (s: Session) => s.status == Parked && KeyOf(site, s) == key && s.vehicleType != spelling
  }

  /** All parked vehicles of a counter are seen, and stored under one spelling. */
  ghost predicate Countable(site: Site, lot: Lot, area: Area, key: CounterKey) {
    OneSpelling(site, lot, key) && (Sees(area) || Count(lot.sessions, ParkedAt(site, key)) == 0)
  }

  /** What reconciliation counts, for any order in which the database returns the groups: the parked
      vehicles of the counter, exactly when the account sees them and all are stored under one
      spelling of their type. */
  lemma ActiveCountIsRightExactly(site: Site, lot: Lot, area: Area, order: seq<string>,
                                  vehicleType: string)
    requires Groups(lot, area, order) && SessionsSound(site, lot)
    ensures var key := CounterKey(area.building, vehicleType);
            var parked := Count(lot.sessions, ParkedAt(site, key));
            && ActiveCount(site, lot, area, order, vehicleType) <= parked
            && (ActiveCount(site, lot, area, order, vehicleType) == parked <==> Countable(site, lot, area, key))
  {
    hide Count, Upper, NormalizePlate;
    var key := CounterKey(area.building, vehicleType);
    var last := LastSpelling(site, order, vehicleType);
    if !Sees(area) {
      forall v ensures Count(lot.sessions, ParkedSpelled(area, v)) == 0 {
        UnseenCountNothing(lot, area, v);
      }
      forall i | 0 <= i < |lot.sessions| && ParkedAt(site, key)(lot.sessions[i])
        ensures Count(lot.sessions, ParkedAt(site, key)) > 0
      {
        CountPositive(lot.sessions, ParkedAt(site, key), i);
      }
    } else if last.None? {
      forall i | 0 <= i < |lot.sessions| ensures !ParkedAt(site, key)(lot.sessions[i]) {
        if ParkedAt(site, key)(lot.sessions[i]) {
          ParkedIsGrouped(site, lot, area, order, i);
        }
      }
      NoneCounted(lot.sessions, ParkedAt(site, key));
    } else {
      var v := last.value;
      CountSplit(lot.sessions, ParkedAt(site, key), ParkedSpelled(area, v), OtherSpelling(site, key, v));
      var chosen := CountWitness(lot.sessions, ParkedSpelled(area, v));
      if Count(lot.sessions, OtherSpelling(site, key, v)) >= 1 {
        var other := CountWitness(lot.sessions, OtherSpelling(site, key, v));
        assert ParkedAt(site, key)(lot.sessions[chosen]) && ParkedAt(site, key)(lot.sessions[other]);
        assert lot.sessions[chosen].vehicleType != lot.sessions[other].vehicleType;
        assert !OneSpelling(site, lot, key) by {
          if chosen < other {
            assert ParkedAt(site, key)(lot.sessions[chosen]);
          } else {
            assert ParkedAt(site, key)(lot.sessions[other]);
          }
        }
      } else {
        forall i | 0 <= i < |lot.sessions| && ParkedAt(site, key)(lot.sessions[i])
          ensures lot.sessions[i].vehicleType == v
        {
          if OtherSpelling(site, key, v)(lot.sessions[i]) {
            CountPositive(lot.sessions, OtherSpelling(site, key, v), i);
          }
        }
      }
    }
  }

  lemma OccupiedAfterReconcile(lot: Lot, building: Option<nat>, cars: nat, motorbikes: nat, bicycles: nat)
    ensures var lot' := Reconciled(lot, building, cars, motorbikes, bicycles);
            && lot'.sessions == lot.sessions
            && Occupied(lot', CounterKey(building, "CAR")) == cars
            && Occupied(lot', CounterKey(building, "MOTORBIKE")) == motorbikes
            && Occupied(lot', CounterKey(building, "BICYCLE")) == bicycles
            && forall key: CounterKey :: (key.building != building || key.vehicleType !in VEHICLE_TYPES) ==>
                 Occupied(lot', key) == Occupied(lot, key)
  {
    var car, moto := CounterKey(building, "CAR"), CounterKey(building, "MOTORBIKE");
    var bike := CounterKey(building, "BICYCLE");
    assert "CAR"[0] == 'C' && "MOTORBIKE"[0] == 'M' && "BICYCLE"[0] == 'B';
    AdjustedToOccupied(lot, car, cars);
    AdjustedToOccupied(AdjustedTo(lot, car, cars), moto, motorbikes);
    AdjustedToOccupied(AdjustedTo(AdjustedTo(lot, car, cars), moto, motorbikes), bike, bicycles);
    assert "CAR" in VEHICLE_TYPES && "MOTORBIKE" in VEHICLE_TYPES && "BICYCLE" in VEHICLE_TYPES;
  }

  lemma AdjustedToOccupied(lot: Lot, key: CounterKey, target: int)
    ensures AdjustedTo(lot, key, target).sessions == lot.sessions
    ensures forall k :: Occupied(AdjustedTo(lot, key, target), k) == if k == key then target else Occupied(lot, k)
  {
  }

  /** After a correcting reconciliation each reconciled counter stands at the count that was read. */
  lemma ReconcileReachesCount(site: Site, lot: Lot, area: Area, order: seq<string>, vehicleType: string)
    requires vehicleType in VEHICLE_TYPES
    ensures Occupied(Next(site, lot, ReconcileCounters(area, true, order)), CounterKey(area.building, vehicleType))
         == ActiveCount(site, lot, area, order, vehicleType)
    ensures Next(site, lot, ReconcileCounters(area, true, order)).sessions == lot.sessions
  {
    hide ActiveCount, Occupied, Reconciled;
    var c := ActiveCount(site, lot, area, order, "CAR");
    var m := ActiveCount(site, lot, area, order, "MOTORBIKE");
    var b := ActiveCount(site, lot, area, order, "BICYCLE");
    OccupiedAfterReconcile(lot, area.building, c, m, b);
    assert vehicleType == "CAR" || vehicleType == "MOTORBIKE" || vehicleType == "BICYCLE";
    if Drifts(site, lot, area, order) == [] {
      assert |DriftOf(lot, area.building, "CAR", c)| == 0;
      assert |DriftOf(lot, area.building, "MOTORBIKE", m)| == 0;
      assert |DriftOf(lot, area.building, "BICYCLE", b)| == 0;
    }
  }

  /** The vehicles in the lot that a counter does not show. */
  function Shortfall(site: Site, lot: Lot, key: CounterKey): int { InLot(site, lot, key) - Occupied(lot, key) }

  /** Reconciliation leaves a counter short of the vehicles in the lot by at least those that wait for
      payment, and by exactly those when and only when the parked ones are seen and share a spelling. */
  lemma ReconcileLeavesShortfall(site: Site, lot: Lot, area: Area, order: seq<string>, vehicleType: string)
    requires Groups(lot, area, order) && SessionsSound(site, lot) && vehicleType in VEHICLE_TYPES
    ensures var key := CounterKey(area.building, vehicleType);
            var shortfall := Shortfall(site, Next(site, lot, ReconcileCounters(area, true, order)), key);
            var waiting := Count(lot.sessions, WaitingAt(site, key));
            && shortfall >= waiting
            && (shortfall == waiting <==> Countable(site, lot, area, key))
  {
    hide Count, Upper, NormalizePlate, Next, ActiveCount, Occupied;
    var key := CounterKey(area.building, vehicleType);
    ReconcileReachesCount(site, lot, area, order, vehicleType);
    ActiveCountIsRightExactly(site, lot, area, order, vehicleType);
    CountSplit(lot.sessions, InLotAt(site, key), ParkedAt(site, key), WaitingAt(site, key));
  }

  /** All spellings under which an account sees parked vehicles of a type are equally frequent. */
  ghost predicate EvenSpellings(site: Site, lot: Lot, area: Area, vehicleType: string) {
    forall i, j :: 0 <= i < |lot.sessions| && 0 <= j < |lot.sessions|
                   && ParkedAt(site, CounterKey(area.building, vehicleType))(lot.sessions[i])
                   && ParkedAt(site, CounterKey(area.building, vehicleType))(lot.sessions[j]) ==>
      Count(lot.sessions, ParkedSpelled(area, lot.sessions[i].vehicleType))
      == Count(lot.sessions, ParkedSpelled(area, lot.sessions[j].vehicleType))
  }

  /** With equally frequent spellings the order of the groups does not matter. */
  lemma EvenSpellingsCountAlike(site: Site, lot: Lot, area: Area, order: seq<string>,
                                again: seq<string>, vehicleType: string)
    requires Groups(lot, area, order) && Groups(lot, area, again) && SessionsSound(site, lot)
    requires EvenSpellings(site, lot, area, vehicleType)
    ensures ActiveCount(site, lot, area, order, vehicleType)
         == ActiveCount(site, lot, area, again, vehicleType)
  {
    hide Count, Upper, NormalizePlate;
    var u, w := LastSpelling(site, order, vehicleType), LastSpelling(site, again, vehicleType);
    if u.Some? {
      var i := CountWitness(lot.sessions, ParkedSpelled(area, u.value));
      ParkedIsGrouped(site, lot, area, again, i);
    }
    if w.Some? {
      var j := CountWitness(lot.sessions, ParkedSpelled(area, w.value));
      ParkedIsGrouped(site, lot, area, order, j);
    }
  }

  /** The spellings of the parked vehicles, each once, except the given one. */
  function SpellingsBut(rows: seq<Session>, area: Area, u: string): seq<string> {
    if rows == [] then []
    else
      var rest := SpellingsBut(rows[..|rows| - 1], area, u);
      var v := rows[|rows| - 1].vehicleType;
      if ParkedSpelled(area, v)(rows[|rows| - 1]) && v != u && v !in rest then rest + [v] else rest
  }

  lemma {:induction false} SpellingsButMeaning(rows: seq<Session>, area: Area, u: string)
    ensures var r := SpellingsBut(rows, area, u);
            && (forall i, j :: 0 <= i < j < |r| ==> r[i] != r[j])
            && (forall v :: v in r <==> v != u && Count(rows, ParkedSpelled(area, v)) >= 1)
  {
    if rows != [] {
      SpellingsButMeaning(rows[..|rows| - 1], area, u);
    }
  }

  /** The groups may come in an order that ends with any one of them. */
  lemma OrderEndingWith(lot: Lot, area: Area, u: string) returns (order: seq<string>)
    requires Count(lot.sessions, ParkedSpelled(area, u)) >= 1
    ensures Groups(lot, area, order) && order != [] && order[|order| - 1] == u
  {
    hide Count;
    SpellingsButMeaning(lot.sessions, area, u);
    order := SpellingsBut(lot.sessions, area, u) + [u];
  }

  lemma CountedLast(site: Site, lot: Lot, area: Area, vehicleType: string, row: nat) returns (order: seq<string>)
    requires SessionsSound(site, lot) && Sees(area) && row < |lot.sessions|
    requires ParkedAt(site, CounterKey(area.building, vehicleType))(lot.sessions[row])
    ensures Groups(lot, area, order)
    ensures ActiveCount(site, lot, area, order, vehicleType)
         == Count(lot.sessions, ParkedSpelled(area, lot.sessions[row].vehicleType))
  {
    hide Count, Upper, NormalizePlate;
    var u := lot.sessions[row].vehicleType;
    CountPositive(lot.sessions, ParkedSpelled(area, u), row);
    order := OrderEndingWith(lot, area, u);
  }

  /** Whatever the two orders of the groups, a second reconciliation finds nothing to correct. */
  ghost predicate Settles(site: Site, lot: Lot, area: Area) {
    forall order, again :: Groups(lot, area, order) && Groups(lot, area, again) ==>
      Drifts(site, Next(site, lot, ReconcileCounters(area, true, order)), area, again) == []
  }

  lemma NoDriftExactly(site: Site, lot: Lot, area: Area, order: seq<string>, again: seq<string>)
    ensures Drifts(site, Next(site, lot, ReconcileCounters(area, true, order)), area, again) == []
       <==> forall v :: v in VEHICLE_TYPES ==>
              ActiveCount(site, lot, area, order, v) == ActiveCount(site, lot, area, again, v)
  {
    hide Next, ActiveCount, Occupied;
    var lot' := Next(site, lot, ReconcileCounters(area, true, order));
    assert "CAR" in VEHICLE_TYPES && "MOTORBIKE" in VEHICLE_TYPES && "BICYCLE" in VEHICLE_TYPES;
    forall v | v in VEHICLE_TYPES
      ensures |DriftOf(lot', area.building, v, ActiveCount(site, lot', area, again, v))| == 0
         <==> ActiveCount(site, lot, area, order, v) == ActiveCount(site, lot, area, again, v)
    {
      ReconcileReachesCount(site, lot, area, order, v);
      ActiveCountReadsSessions(site, lot, lot', area, again, v);
    }
  }

  /** A reconciliation is final, however the database orders the groups, exactly when for each vehicle
      type all spellings that the account sees are equally frequent. */
  lemma ReconcileSettlesExactly(site: Site, lot: Lot, area: Area)
    requires SessionsSound(site, lot)
    ensures Settles(site, lot, area)
       <==> forall v :: v in VEHICLE_TYPES ==> EvenSpellings(site, lot, area, v)
  {
    hide Count, Upper, NormalizePlate, Next, ActiveCount, Drifts;
    if Settles(site, lot, area) {
      forall v, i, j | v in VEHICLE_TYPES && 0 <= i < |lot.sessions| && 0 <= j < |lot.sessions|
                       && ParkedAt(site, CounterKey(area.building, v))(lot.sessions[i])
                       && ParkedAt(site, CounterKey(area.building, v))(lot.sessions[j])
        ensures Count(lot.sessions, ParkedSpelled(area, lot.sessions[i].vehicleType))
             == Count(lot.sessions, ParkedSpelled(area, lot.sessions[j].vehicleType))
      {
        if Sees(area) {
          var order := CountedLast(site, lot, area, v, i);
          var again := CountedLast(site, lot, area, v, j);
          NoDriftExactly(site, lot, area, order, again);
        } else {
          UnseenCountNothing(lot, area, lot.sessions[i].vehicleType);
          UnseenCountNothing(lot, area, lot.sessions[j].vehicleType);
        }
      }
    }
    if forall v :: v in VEHICLE_TYPES ==> EvenSpellings(site, lot, area, v) {
      forall order, again | Groups(lot, area, order) && Groups(lot, area, again)
        ensures Drifts(site, Next(site, lot, ReconcileCounters(area, true, order)), area, again) == []
      {
        forall v | v in VEHICLE_TYPES
          ensures ActiveCount(site, lot, area, order, v) == ActiveCount(site, lot, area, again, v)
        {
          EvenSpellingsCountAlike(site, lot, area, order, again, v);
        }
        NoDriftExactly(site, lot, area, order, again);
      }
    }
  }

  // ---------------------------------------------------------------------------------------
  // Runs that meet the exceptions
  // ---------------------------------------------------------------------------------------

  function Arrival(spelling: string, ticket: string): CheckInRequest {
    CheckInRequest(Some(0), 0, 0, spelling, Visitor, None, Some(ticket), ticket, None, None, None, 0)
  }

  const OPEN_GATE := Outside(Allow, true)

  /** A building that is ready for entry: a lane in, a lane out and stored capacities for cars. */
  ghost predicate ReadySite(site: Site) {
    && SiteValid(site)
    && site.lanes == map[0 := Lane(true, true, 0, None), 1 := Lane(true, false, 0, None)]
    && site.settings == map[CounterKey(Some(0), "CAR") := Stored(Some(100), Some(120), 20, 10, 50, 80.0, 95.0)]
    && site.upper('c') == "C" && site.upper('a') == "A" && site.upper('r') == "R" && site.upper('t') == "T"
  }

  lemma CarUpper(upper: CaseMap)
    requires FixesPlateChars(upper) && upper('c') == "C" && upper('a') == "A" && upper('r') == "R"
    ensures Upper(upper, "car") == "CAR" && Upper(upper, "CAR") == "CAR"
  {
    UpperOfClean(upper, "CAR");
    assert "car"[1..] == "ar" && "ar"[1..] == "r" && "r"[1..] == "";
  }

  lemma ArrivalIsAdmitted(site: Site, lot: Lot, spelling: string, ticket: string)
    requires ReadySite(site) && spelling in {"CAR", "car"} && KeyError(ticket).None?
    requires forall i :: 0 <= i < |lot.sessions| ==>
               && lot.sessions[i].checkInKey != ticket && lot.sessions[i].ticket != Some(ticket)
               && lot.sessions[i].plate == None
    requires Occupied(lot, CounterKey(Some(0), "CAR")) < 70
    ensures var s := NewSession(site, site.lanes[0], Arrival(spelling, ticket));
            Next(site, lot, CheckIn(Arrival(spelling, ticket), OPEN_GATE)) == Apply(site, lot, Admit(s))
  {
    hide First, Upper, Apply, KeyError;
    CarUpper(site.upper);
    var req, lane := Arrival(spelling, ticket), site.lanes[0];
    assert "CAR"[0] == 'C' && "car"[0] == 'c' && "BICYCLE"[0] == 'B';
    assert KeyOf(site, NewSession(site, lane, req)) == CounterKey(Some(0), "CAR");
    assert LimitAt(site, CounterKey(Some(0), "CAR"), Visitor) == 70;
    assert First(lot.sessions, WithCheckInKey(0, ticket)).None?;
    assert First(lot.sessions, ActiveWithTicketIn(0, ticket)).None?;
    assert First(lot.sessions, TicketConflict(Some(ticket))).None?;
    assert First(lot.sessions, PlateConflict(0, None)).None?;
    assert AccessError(site, lot, lane, req, OPEN_GATE).None?;
  }

  /** One car has checked in. */
  lemma OneArrival(site: Site, spelling: string, ticket: string) returns (lot: Lot)
    requires ReadySite(site) && spelling in {"CAR", "car"} && KeyError(ticket).None?
    ensures lot == Run(site, EMPTY_LOT, [CheckIn(Arrival(spelling, ticket), OPEN_GATE)])
    ensures lot.sessions == [NewSession(site, site.lanes[0], Arrival(spelling, ticket))]
    ensures Occupied(lot, CounterKey(Some(0), "CAR")) == 1
  {
    hide Decide, Upper, KeyError;
    CarUpper(site.upper);
    ArrivalIsAdmitted(site, EMPTY_LOT, spelling, ticket);
    var steps := [CheckIn(Arrival(spelling, ticket), OPEN_GATE)];
    assert steps[..0] == [];
    lot := Next(site, EMPTY_LOT, steps[0]);
  }

  /** Two cars checked in as "CAR" and one as "car". */
  const THREE_ARRIVALS := [CheckIn(Arrival("CAR", "T-1"), OPEN_GATE), CheckIn(Arrival("CAR", "T-2"), OPEN_GATE),
                           CheckIn(Arrival("car", "T-3"), OPEN_GATE)]

  lemma ThreeArrivals(site: Site) returns (lot: Lot)
    requires ReadySite(site)
    ensures lot == Run(site, EMPTY_LOT, THREE_ARRIVALS)
    ensures var lane := site.lanes[0];
            lot.sessions == [NewSession(site, lane, Arrival("CAR", "T-1")),
                             NewSession(site, lane, Arrival("CAR", "T-2")),
                             NewSession(site, lane, Arrival("car", "T-3"))]
  {
    hide Decide, Upper;
    CarUpper(site.upper);
    var a, b, c := Arrival("CAR", "T-1"), Arrival("CAR", "T-2"), Arrival("car", "T-3");
    assert "T-1"[2] == '1' && "T-2"[2] == '2' && "T-3"[2] == '3';
    assert !IsSpace("T-1"[0]) && !IsSpace("T-2"[0]) && !IsSpace("T-3"[0]);
    var lot1 := OneArrival(site, "CAR", "T-1");
    ArrivalIsAdmitted(site, lot1, "CAR", "T-2");
    var lot2 := Next(site, lot1, CheckIn(b, OPEN_GATE));
    ArrivalIsAdmitted(site, lot2, "car", "T-3");
    lot := Next(site, lot2, CheckIn(c, OPEN_GATE));
    var steps := THREE_ARRIVALS;
    assert steps[..2] == [CheckIn(a, OPEN_GATE), CheckIn(b, OPEN_GATE)];
    assert steps[..2][..1] == [CheckIn(a, OPEN_GATE)];
    assert Run(site, EMPTY_LOT, steps[..2]) == lot2;
  }

  lemma SpellingCounts(site: Site, sessions: seq<Session>, v: string)
    requires ReadySite(site)
    requires var lane := site.lanes[0];
             sessions == [NewSession(site, lane, Arrival("CAR", "T-1")),
                          NewSession(site, lane, Arrival("CAR", "T-2")),
                          NewSession(site, lane, Arrival("car", "T-3"))]
    ensures Count(sessions, ParkedSpelled(Area(Some(0), Some(0)), v))
         == if v == "CAR" then 2 else if v == "car" then 1 else 0
  {
    hide Count, PlateOf;
    var p := ParkedSpelled(Area(Some(0), Some(0)), v);
    var a, b, c := sessions[0], sessions[1], sessions[2];
    CountAppend([], p, a);
    CountAppend([a], p, b);
    CountAppend([a, b], p, c);
    NoneCounted([], p);
    assert [] + [a] == [a] && [a] + [b] == [a, b] && [a, b] + [c] == [a, b, c] == sessions;
    assert "CAR"[0] == 'C' && "car"[0] == 'c';
  }

  /** A reconciliation that does not settle is reachable: after three arrivals the cars are counted as
      one or as two, depending on the order of the groups, and reconciling in one order leaves a drift
      in the other. */
  lemma TwoSpellingsNeverSettle(site: Site)
    requires ReadySite(site)
    ensures var lot, area := Run(site, EMPTY_LOT, THREE_ARRIVALS), Area(Some(0), Some(0));
            var lot' := Next(site, lot, ReconcileCounters(area, true, ["car", "CAR"]));
            && Groups(lot, area, ["car", "CAR"]) && Groups(lot, area, ["CAR", "car"])
            && Drifts(site, lot', area, ["CAR", "car"]) != []
  {
    hide Count, Upper, Next, Occupied, Run;
    CarUpper(site.upper);
    var lot := ThreeArrivals(site);
    var area := Area(Some(0), Some(0));
    assert "CAR"[0] == 'C' && "car"[0] == 'c';
    forall v: string
      ensures Count(lot.sessions, ParkedSpelled(area, v)) == if v == "CAR" then 2 else if v == "car" then 1 else 0
    {
      SpellingCounts(site, lot.sessions, v);
    }
    var order, again := ["car", "CAR"], ["CAR", "car"];
    assert LastSpelling(site, order, "CAR") == Some("CAR");
    assert LastSpelling(site, again, "CAR") == Some("car");
    var lot' := Next(site, lot, ReconcileCounters(area, true, order));
    assert "CAR" in VEHICLE_TYPES;
    ReconcileReachesCount(site, lot, area, order, "CAR");
    ActiveCountReadsSessions(site, lot, lot', area, again, "CAR");
    assert |DriftOf(lot', Some(0), "CAR", ActiveCount(site, lot', area, again, "CAR"))| == 1;
  }

  // ---------------------------------------------------------------------------------------
  // How the shortfall develops
  // ---------------------------------------------------------------------------------------

  lemma ShortfallNeverGrowsInAStep(site: Site, lot: Lot, e: Effect, key: CounterKey)
    requires Legal(site, lot, e) && OrdinaryEffect(e)
    requires Shortfall(site, lot, key) >= 0 && Occupied(lot, key) >= 0
    ensures 0 <= Shortfall(site, Apply(site, lot, e), key) <= Shortfall(site, lot, key)
    ensures Occupied(Apply(site, lot, e), key) >= 0
    ensures Occupied(Apply(site, lot, e), key)
         <= Max(Occupied(lot, key), Max(LimitAt(site, key, Resident), LimitAt(site, key, Visitor)))
    ensures Shortfall(site, Apply(site, lot, e), key) < Shortfall(site, lot, key) <==>
              e.Close? && KeyOf(site, lot.sessions[e.row]) == key && Occupied(lot, key) == 0
  {
    hide Apply, InLot, Occupied, Upper;
    InLotAfter(site, lot, e, key);
    OccupiedAfter(site, lot, e, key);
  }

  /** From then on, ordinary steps never let the shortfall grow or go negative, and the vehicles in
      the lot outnumber the physical capacity by no more than the shortfall. */
  lemma {:induction false} ShortfallNeverGrows(site: Site, lot: Lot, steps: seq<Step>, key: CounterKey)
    requires SiteValid(site) && AllOrdinary(steps)
    requires Shortfall(site, lot, key) >= 0 && Occupied(lot, key) >= 0
    ensures 0 <= Shortfall(site, Run(site, lot, steps), key) <= Shortfall(site, lot, key)
    ensures var most := Max(Occupied(lot, key), LimitAt(site, key, Resident));
            && 0 <= Occupied(Run(site, lot, steps), key) <= most
            && InLot(site, Run(site, lot, steps), key) <= most + Shortfall(site, lot, key)
  {
    hide InLot, Occupied, Upper, LimitAt, Apply;
    if steps != [] {
      var n := |steps| - 1;
      var before := Run(site, lot, steps[..n]);
      ShortfallNeverGrows(site, lot, steps[..n], key);
      DecisionsAreLegal(site, before, steps[n]);
      EntryIsAccepted(site, key);
      ShortfallNeverGrowsInAStep(site, before, Decide(site, before, steps[n]).effect, key);
    }
  }

  /** After any run at all, then a reconciliation, then any ordinary run, a counter is short of the
      vehicles in the lot by at most those that waited for payment at the reconciliation. */
  lemma ShortfallAfterReconcile(site: Site, steps: seq<Step>, area: Area, order: seq<string>,
                                vehicleType: string, later: seq<Step>)
    requires SiteValid(site) && AllOrdinary(later) && vehicleType in VEHICLE_TYPES
    requires Groups(Run(site, EMPTY_LOT, steps), area, order)
    requires Countable(site, Run(site, EMPTY_LOT, steps), area, CounterKey(area.building, vehicleType))
    ensures var lot, key := Run(site, EMPTY_LOT, steps), CounterKey(area.building, vehicleType);
            var reconciled := Next(site, lot, ReconcileCounters(area, true, order));
            0 <= Shortfall(site, Run(site, reconciled, later), key) <= Count(lot.sessions, WaitingAt(site, key))
  {
    hide Count, InLot, Occupied, Upper, LimitAt, Next, Run;
    var lot, key := Run(site, EMPTY_LOT, steps), CounterKey(area.building, vehicleType);
    RunIsSound(site, steps);
    ReconcileLeavesShortfall(site, lot, area, order, vehicleType);
    ReconcileReachesCount(site, lot, area, order, vehicleType);
    ShortfallNeverGrows(site, Next(site, lot, ReconcileCounters(area, true, order)), later, key);
  }

  // ---------------------------------------------------------------------------------------
  // What lets a vehicle in, and what lets it out
  // ---------------------------------------------------------------------------------------

  /** Access control apart from capacity. */
  predicate AccessGranted(lane: Lane, req: CheckInRequest, outside: Outside) {
    && (lane.allowed.None? || lane.allowed.value == TypeOf(req))
    && (TypeOf(req) == "BICYCLE" ==> req.ticket.Some? && req.ticket.value != "")
    && (outside.access.Allow? || (outside.access.Review? && HasOverride(req)))
  }

  /** A vehicle is let in exactly when its key is new in the building, it comes by an open inbound lane
      that its account sees, with access and a detection of that lane if any, nothing in the lot
      conflicts with it, and its counter is below the limit of its class. The duplicate checks and the
      earlier capacity check decide nothing more. */
  lemma AdmittedExactly(site: Site, lot: Lot, req: CheckInRequest, outside: Outside)
    requires req.lane in site.lanes
    ensures var lane := site.lanes[req.lane];
            var s := NewSession(site, lane, req);
            DecideCheckIn(site, lot, req, outside).effect.Admit? <==>
              && KeyError(req.key).None? && (req.bodyKey.Some? ==> req.bodyKey.value == req.key)
              && (s.plate.Some? ==> 3 <= |s.plate.value| <= 50)
              && Visible(req.scope, lane.building) && lane.active && lane.inbound
              && (req.detection.Some? ==>
                    req.detection.value in site.detections
                    && site.detections[req.detection.value] == Detection(req.lane, lane.building))
              && AccessGranted(lane, req, outside) && outside.ready && FreshFor(lot, s)
              && Occupied(lot, KeyOf(site, s)) < LimitAt(site, KeyOf(site, s), s.cls)
  {
    hide First, NormalizePlate, Upper, LimitAt, Occupied, KeyError;
    var lane := site.lanes[req.lane];
    var s := NewSession(site, lane, req);
    FreshExactly(lot, s);
  }

  lemma FreshExactly(lot: Lot, s: Session)
    ensures FreshFor(lot, s) <==>
              && First(lot.sessions, WithCheckInKey(s.building, s.checkInKey)).None?
              && First(lot.sessions, PlateConflict(s.building, s.plate)).None?
              && First(lot.sessions, TicketConflict(s.ticket)).None?
    ensures FreshFor(lot, s) ==> DuplicateError(lot, s.building, s.plate, s.ticket).None?
  {
    hide First;
    forall i | 0 <= i < |lot.sessions|
      ensures Active(lot.sessions[i].status) && Conflicting(s, lot.sessions[i]) <==>
                || PlateConflict(s.building, s.plate)(lot.sessions[i])
                || TicketConflict(s.ticket)(lot.sessions[i])
      ensures lot.sessions[i].building == s.building && lot.sessions[i].checkInKey == s.checkInKey <==>
                WithCheckInKey(s.building, s.checkInKey)(lot.sessions[i])
    {
    }
  }

  /** A vehicle leaves only by a check-out through an open outbound lane that is free of charge or paid
      on the spot at the fee of that step, by a recorded payment at the fee it was held with, or
      by an emergency exit free of charge. */
  lemma LeavingMeansSettled(site: Site, lot: Lot, step: Step, row: nat)
    requires SiteValid(site) && SessionsSound(site, lot) && row < |lot.sessions|
    requires lot.sessions[row].status != Completed
    ensures row < |Next(site, lot, step).sessions|
    ensures var s, s' := lot.sessions[row], Next(site, lot, step).sessions[row];
            s'.status == Completed ==>
              match step
              case Checkout(req, fee) =>
                && s'.fee == fee && (fee == 0 || req.paysNow)
                && (req.expectedFee.Some? ==> req.expectedFee.value == fee)
                && s'.exitLane == Some(req.exitLane) && req.key in s'.checkoutKeys
                && LaneSeen(site, req.scope, req.exitLane) && site.lanes[req.exitLane].building == s.building
                && site.lanes[req.exitLane].active && !site.lanes[req.exitLane].inbound
              case RecordPayment(scope, r, amount) =>
                r == row && s.status == PaymentPending && s'.fee == s.fee > 0 && s'.exitLane == s.exitLane
              case EmergencyExit(req) => s'.fee == 0 && s'.exitLane == Some(req.lane)
              case _ => false
  {
    hide First, NormalizePlate, Upper, LimitAt, Occupied, Count;
    DecisionsAreLegal(site, lot, step);
    match step
    case ReconcileCounters(area, autoCorrect, order) =>
      ReconciledSessions(lot, area.building, ActiveCount(site, lot, area, order, "CAR"),
                         ActiveCount(site, lot, area, order, "MOTORBIKE"),
                         ActiveCount(site, lot, area, order, "BICYCLE"));
    case _ =>
  }

  /** A recorded payment closes a waiting session whatever the amount, at the fee it was held with, so it
      covers the fee exactly when the amount handed in is at least the held fee. */
  lemma PaymentCoversExactly(site: Site, lot: Lot, scope: Option<nat>, row: nat, amount: nat)
    requires SessionsSound(site, lot) && row < |lot.sessions| && Visible(scope, lot.sessions[row].building)
    requires lot.sessions[row].status == PaymentPending
    ensures row < |Next(site, lot, RecordPayment(scope, row, amount)).sessions|
    ensures var s' := Next(site, lot, RecordPayment(scope, row, amount)).sessions[row];
            s'.status == Completed && (s'.fee <= amount <==> lot.sessions[row].fee <= amount)
    ensures forall other: nat ::
              Decide(site, lot, RecordPayment(scope, row, other))
              == Decide(site, lot, RecordPayment(scope, row, amount))
  {
    hide Upper, Occupied, NormalizePlate;
  }

  function Departure(key: string): CheckoutRequest {
    CheckoutRequest(Some(0), Some(0), None, None, 1, None, false, None, false, false, key)
  }

  lemma DepartureIsHeld(site: Site, lot: Lot, fee: nat)
    requires ReadySite(site) && fee > 0
    requires lot.sessions == [NewSession(site, site.lanes[0], Arrival("CAR", "T-1"))]
    ensures Decide(site, lot, Checkout(Departure("K-1"), fee)) == Outcome(FeeDue(0, fee), Hold(0, fee, 1, "K-1"))
  {
    hide First, Upper, PlateOf;
    assert !IsSpace("K-1"[0]);
    assert First(lot.sessions, ClosedWithKey(Some(0), "K-1")).None?;
  }

  /** A payment that does not cover the fee is reachable: a car is held for a fee and let go for less. */
  lemma UnderpaymentCloses(site: Site, fee: nat, amount: nat)
    requires ReadySite(site) && amount < fee
    ensures var steps := [CheckIn(Arrival("CAR", "T-1"), OPEN_GATE), Checkout(Departure("K-1"), fee),
                          RecordPayment(Some(0), 0, amount)];
            var lot := Run(site, EMPTY_LOT, steps);
            |lot.sessions| == 1 && lot.sessions[0].status == Completed && lot.sessions[0].fee == fee > amount
  {
    hide Upper, Occupied, Decide, PlateOf;
    var arrive, hold := CheckIn(Arrival("CAR", "T-1"), OPEN_GATE), Checkout(Departure("K-1"), fee);
    var steps := [arrive, hold, RecordPayment(Some(0), 0, amount)];
    assert !IsSpace("T-1"[0]);
    var lot1 := OneArrival(site, "CAR", "T-1");
    DepartureIsHeld(site, lot1, fee);
    var lot2 := Next(site, lot1, hold);
    assert steps[..2] == [arrive, hold] && steps[..2][..1] == [arrive];
    assert Run(site, EMPTY_LOT, steps[..2]) == lot2;
    PaymentCloses(site, lot2, amount);
  }

  lemma PaymentCloses(site: Site, lot: Lot, amount: nat)
    requires |lot.sessions| == 1 && lot.sessions[0].status == PaymentPending && lot.sessions[0].building == 0
    requires lot.sessions[0].exitLane.Some?
    ensures var lot' := Next(site, lot, RecordPayment(Some(0), 0, amount));
            |lot'.sessions| == 1 && lot'.sessions[0].status == Completed && lot'.sessions[0].fee == lot.sessions[0].fee
  {
    hide Upper, Occupied;
  }

  // ---------------------------------------------------------------------------------------
  // Repeated requests and look-ups
  // ---------------------------------------------------------------------------------------

  /** A completed session is never changed again, by any step. */
  lemma CompletedIsFrozen(site: Site, lot: Lot, step: Step, row: nat)
    requires SiteValid(site) && row < |lot.sessions| && lot.sessions[row].status == Completed
    ensures row < |Next(site, lot, step).sessions| && Next(site, lot, step).sessions[row] == lot.sessions[row]
  {
    DecisionsAreLegal(site, lot, step);
    EffectFreezes(site, lot, Decide(site, lot, step).effect, row);
  }

  lemma EffectFreezes(site: Site, lot: Lot, e: Effect, row: nat)
    requires Legal(site, lot, e) && row < |lot.sessions| && lot.sessions[row].status == Completed
    ensures row < |Apply(site, lot, e).sessions| && Apply(site, lot, e).sessions[row] == lot.sessions[row]
  {
    hide Upper, LimitAt, Occupied, NormalizePlate;
  }

  lemma {:induction false} CompletedStaysOnRuns(site: Site, lot: Lot, steps: seq<Step>, row: nat)
    requires SiteValid(site) && row < |lot.sessions| && lot.sessions[row].status == Completed
    ensures row < |Run(site, lot, steps).sessions| && Run(site, lot, steps).sessions[row] == lot.sessions[row]
  {
    if steps != [] {
      CompletedStaysOnRuns(site, lot, steps[..|steps| - 1], row);
      CompletedIsFrozen(site, Run(site, lot, steps[..|steps| - 1]), steps[|steps| - 1], row);
    }
  }

  /** Once a check-out with a key has closed a session, no later check-out with that key by an account
      that sees the session, whatever it asks for, closes or changes anything: the counter is
      decremented once per key and building. */
  lemma CheckoutKeyWorksOnce(site: Site, lot: Lot, req: CheckoutRequest, fee: nat, later: seq<Step>,
                             req': CheckoutRequest, fee': nat)
    requires SiteValid(site) && DecideCheckout(site, lot, req, fee).effect.Close? && req'.key == req.key
    requires var row := DecideCheckout(site, lot, req, fee).effect.row;
             row < |lot.sessions| ==> Visible(req'.scope, lot.sessions[row].building)
    ensures var lot' := Run(site, Next(site, lot, Checkout(req, fee)), later);
            && DecideCheckout(site, lot', req', fee').reply.AlreadyClosed?
            && Next(site, lot', Checkout(req', fee')) == lot'
  {
    hide Count, NormalizePlate, Occupied, LimitAt, Upper;
    var lot1 := Next(site, lot, Checkout(req, fee));
    var row := DecideCheckout(site, lot, req, fee).effect.row;
    DecisionsAreLegal(site, lot, Checkout(req, fee));
    assert lot1.sessions[row].status == Completed && req.key in lot1.sessions[row].checkoutKeys;
    CompletedStaysOnRuns(site, lot1, later, row);
    var lot' := Run(site, lot1, later);
    assert ClosedWithKey(req'.scope, req'.key)(lot'.sessions[row]);
  }

  /** Asking again for a check-in with the same key returns the session it made and changes nothing,
      on every later run. */
  lemma {:induction false} CheckInKeyStays(site: Site, lot: Lot, steps: seq<Step>, row: nat)
    requires SiteValid(site) && row < |lot.sessions|
    ensures var lot' := Run(site, lot, steps);
            && row < |lot'.sessions|
            && lot'.sessions[row].checkInKey == lot.sessions[row].checkInKey
            && lot'.sessions[row].fingerprint == lot.sessions[row].fingerprint
            && lot'.sessions[row].building == lot.sessions[row].building
  {
    if steps != [] {
      var before := Run(site, lot, steps[..|steps| - 1]);
      CheckInKeyStays(site, lot, steps[..|steps| - 1], row);
      DecisionsAreLegal(site, before, steps[|steps| - 1]);
      EffectKeepsIdentity(site, before, Decide(site, before, steps[|steps| - 1]).effect, row);
    }
  }

  lemma EffectKeepsIdentity(site: Site, lot: Lot, e: Effect, row: nat)
    requires Legal(site, lot, e) && row < |lot.sessions|
    ensures var lot' := Apply(site, lot, e);
            && |lot.sessions| <= |lot'.sessions|
            && lot'.sessions[row].checkInKey == lot.sessions[row].checkInKey
            && lot'.sessions[row].fingerprint == lot.sessions[row].fingerprint
            && lot'.sessions[row].building == lot.sessions[row].building
  {
    hide Upper, LimitAt, Occupied, NormalizePlate;
  }

  /** No two sessions of a building share a check-in key. */
  ghost predicate KeysUnique(lot: Lot) {
    forall i, j :: 0 <= i < j < |lot.sessions| && lot.sessions[i].building == lot.sessions[j].building ==>
      lot.sessions[i].checkInKey != lot.sessions[j].checkInKey
  }

  lemma {:induction false} KeysStayUnique(site: Site, lot: Lot, steps: seq<Step>)
    requires SiteValid(site) && KeysUnique(lot)
    ensures KeysUnique(Run(site, lot, steps))
  {
    if steps != [] {
      var before := Run(site, lot, steps[..|steps| - 1]);
      KeysStayUnique(site, lot, steps[..|steps| - 1]);
      DecisionsAreLegal(site, before, steps[|steps| - 1]);
      EffectKeepsKeys(site, before, Decide(site, before, steps[|steps| - 1]).effect);
    }
  }

  lemma EffectKeepsKeys(site: Site, lot: Lot, e: Effect)
    requires Legal(site, lot, e) && KeysUnique(lot)
    ensures KeysUnique(Apply(site, lot, e))
  {
    hide Upper, LimitAt, Occupied, NormalizePlate;
  }

  /** A repeated check-in is replayed: same row, no second session, no second increment. */
  lemma CheckInIsReplayed(site: Site, lot: Lot, req: CheckInRequest, outside: Outside, later: seq<Step>,
                          outside': Outside)
    requires SiteValid(site) && KeysUnique(lot) && DecideCheckIn(site, lot, req, outside).effect.Admit?
    ensures var lot' := Run(site, Next(site, lot, CheckIn(req, outside)), later);
            DecideCheckIn(site, lot', req, outside') == Outcome(Replayed(|lot.sessions|), Unchanged)
  {
    hide Count, NormalizePlate, Occupied, LimitAt, Upper, Run;
    var lot1 := Next(site, lot, CheckIn(req, outside));
    var row := |lot.sessions|;
    DecisionsAreLegal(site, lot, CheckIn(req, outside));
    EffectKeepsKeys(site, lot, DecideCheckIn(site, lot, req, outside).effect);
    CheckInKeyStays(site, lot1, later, row);
    KeysStayUnique(site, lot1, later);
    var lot' := Run(site, lot1, later);
    var ours := WithCheckInKey(site.lanes[req.lane].building, req.key);
    assert ours(lot'.sessions[row]);
    assert First(lot'.sessions, ours) == Some(row);
  }

  /** No look-up by plate or ticket ever finds two open sessions. */
  lemma LookUpIsNeverAmbiguous(site: Site, steps: seq<Step>, req: CheckoutRequest)
    requires SiteValid(site)
    ensures FindSession(site, Run(site, EMPTY_LOT, steps), req) != Failure(DuplicateActiveSessions)
  {
    hide Upper, NormalizePlate, Run, Count;
    var lot := Run(site, EMPTY_LOT, steps);
    RunIsSound(site, steps);
    if req.session.None? {
      var p := if req.ticket.Some? && req.ticket.value != ""
        then EligibleWithTicket(req.scope, Upper(site.upper, req.ticket.value))
        else EligibleWithPlate(req.scope, NormalizePlate(site.upper, if req.plate.Some? then req.plate.value else ""));
      forall i, j | 0 <= i < j < |lot.sessions| ensures !(p(lot.sessions[i]) && p(lot.sessions[j])) {
        assert p(lot.sessions[i]) && p(lot.sessions[j]) ==> Conflicting(lot.sessions[j], lot.sessions[i]);
      }
      AtMostOneCounted(lot.sessions, p);
    }
  }

  /** On every run, an open session is found by its own stored plate exactly by an account of its
      building: an account without a building finds nothing by plate. */
  lemma FoundByPlateExactly(site: Site, steps: seq<Step>, req: CheckoutRequest, row: nat)
    requires SiteValid(site)
    requires var lot := Run(site, EMPTY_LOT, steps);
             && row < |lot.sessions| && CheckoutEligible(lot.sessions[row].status)
             && lot.sessions[row].plate.Some? && req.plate == lot.sessions[row].plate
    requires req.session.None? && req.ticket.None?
    ensures FindSession(site, Run(site, EMPTY_LOT, steps), req) == Success(row)
       <==> req.scope == Some(Run(site, EMPTY_LOT, steps).sessions[row].building)
  {
    hide Upper, NormalizePlate, Run, Count;
    var lot := Run(site, EMPTY_LOT, steps);
    RunIsSound(site, steps);
    LookUpIsNeverAmbiguous(site, steps, req);
    assert PlateStored(site, lot.sessions[row]);
    var p := EligibleWithPlate(req.scope, req.plate.value);
    var found := FindSession(site, lot, req);
    if req.scope == Some(lot.sessions[row].building) {
      assert p(lot.sessions[row]);
      assert found.Success? && p(lot.sessions[found.value]);
      OnlyOne(lot, found.value, row);
    }
  }

  lemma OnlyOne(lot: Lot, i: nat, j: nat)
    requires NoDuplicates(lot) && i < |lot.sessions| && j < |lot.sessions|
    requires Active(lot.sessions[i].status) && Active(lot.sessions[j].status)
    requires Conflicting(lot.sessions[i], lot.sessions[j]) && Conflicting(lot.sessions[j], lot.sessions[i])
    ensures i == j
  {
  }

  /** By its own ticket it is found exactly by an account of its building and when the ticket is stored
      in upper case, because check-in stores tickets as given and check-out looks them up in upper
      case. */
  lemma FoundByTicketExactly(site: Site, steps: seq<Step>, req: CheckoutRequest, row: nat)
    requires SiteValid(site)
    requires var lot := Run(site, EMPTY_LOT, steps);
             && row < |lot.sessions| && CheckoutEligible(lot.sessions[row].status)
             && lot.sessions[row].ticket.Some? && lot.sessions[row].ticket.value != ""
             && req.ticket == lot.sessions[row].ticket
    requires req.session.None?
    ensures FindSession(site, Run(site, EMPTY_LOT, steps), req) == Success(row)
       <==> && req.scope == Some(Run(site, EMPTY_LOT, steps).sessions[row].building)
            && Upper(site.upper, req.ticket.value) == req.ticket.value
  {
    hide Upper, NormalizePlate, Run, Count;
    var lot := Run(site, EMPTY_LOT, steps);
    RunIsSound(site, steps);
    LookUpIsNeverAmbiguous(site, steps, req);
    var p := EligibleWithTicket(req.scope, Upper(site.upper, req.ticket.value));
    var found := FindSession(site, lot, req);
    if req.scope == Some(lot.sessions[row].building) && Upper(site.upper, req.ticket.value) == req.ticket.value {
      assert p(lot.sessions[row]);
      assert found.Success? && p(lot.sessions[found.value]);
      OnlyOne(lot, found.value, row);
    }
  }

  /** A ticket that is not found is reachable: a car checked in with a ticket in lower case. */
  lemma LowerCaseTicketIsLost(site: Site, req: CheckoutRequest)
    requires ReadySite(site) && req.session.None? && req.ticket == Some("t-1")
    ensures var lot := Run(site, EMPTY_LOT, [CheckIn(Arrival("CAR", "t-1"), OPEN_GATE)]);
            && |lot.sessions| == 1 && lot.sessions[0].status == Parked && lot.sessions[0].ticket == req.ticket
            && FindSession(site, lot, req) == Failure(SessionNotFound)
  {
    hide Run, NormalizePlate, First, Count;
    assert !IsSpace("t-1"[0]);
    var lot := OneArrival(site, "CAR", "t-1");
    assert Upper(site.upper, "t-1")[0] == 'T' && "t-1"[0] == 't';
  }
}
