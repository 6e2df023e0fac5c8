/** What every run of the parking services keeps: counters, sessions and the ledger
    (backend/app/modules/checkin, backend/app/modules/checkout, backend/app/modules/operations). */
module LotRuns {
  import opened Common
  import opened Plates
  import opened LotModel

  // ---------------------------------------------------------------------------------------
  // What a decision may do
  // ---------------------------------------------------------------------------------------

  /** Two sessions that the unique indexes would not both allow in the lot. */
  predicate Conflicting(s: Session, t: Session) {
    || (s.ticket.Some? && s.ticket == t.ticket)
    || (s.plate.Some? && s.building == t.building && s.plate == t.plate)
  }

  /** The key is new in the building, and no vehicle in the lot conflicts. */
  ghost predicate FreshFor(lot: Lot, s: Session) {
    forall i :: 0 <= i < |lot.sessions| ==>
      && (lot.sessions[i].building == s.building ==> lot.sessions[i].checkInKey != s.checkInKey)
      && (Active(lot.sessions[i].status) ==> !Conflicting(s, lot.sessions[i]))
  }

  /** A plate as check-in stores it. */
  predicate PlateStored(site: Site, s: Session) {
    s.plate.Some? ==> s.plate.value != "" && NormalizePlate(site.upper, s.plate.value) == s.plate.value
  }

  ghost predicate Legal(site: Site, lot: Lot, e: Effect) {
    match e
    case Unchanged => true
    case Admit(s) =>
      && s.status == Parked && s.checkoutKeys == {} && FreshFor(lot, s) && PlateStored(site, s)
      && s.vehicleType != ""
      && Occupied(lot, KeyOf(site, s)) < LimitAt(site, KeyOf(site, s), s.cls)
    case Hold(row, fee, _, _) =>
      row < |lot.sessions| && lot.sessions[row].status in {Parked, PaymentPending} && fee > 0
    case Close(row, _, _, _) => row < |lot.sessions| && Active(lot.sessions[row].status)
    case AdjustBy(key, delta) => delta != 0 && Occupied(lot, key) + delta >= 0
    case Reconcile(_, _, _, _) => true
  }

  predicate OrdinaryEffect(e: Effect) { !e.AdjustBy? && !e.Reconcile? }

  lemma CheckInIsLegal(site: Site, lot: Lot, req: CheckInRequest, outside: Outside)
    requires SiteValid(site)
    ensures Legal(site, lot, DecideCheckIn(site, lot, req, outside).effect)
  {
    hide First, Count, NormalizePlate;
    var d := DecideCheckIn(site, lot, req, outside);
    if d.effect.Admit? {
      var s := d.effect.session;
      if s.plate.Some? {
        NormalizeIsIdempotent(site.upper, req.plate.value);
      }
      forall i | 0 <= i < |lot.sessions|
        ensures lot.sessions[i].building == s.building ==> lot.sessions[i].checkInKey != s.checkInKey
        ensures Active(lot.sessions[i].status) ==> !Conflicting(s, lot.sessions[i])
      {
        var t := lot.sessions[i];
        assert !WithCheckInKey(s.building, req.key)(t);
        assert !PlateConflict(s.building, s.plate)(t);
        assert !TicketConflict(s.ticket)(t);
      }
    }
  }

  /** Whatever a service decides, it admits only below the limit and without a conflict, holds and
      closes only sessions that are in the lot, and never takes a counter below zero by hand. */
  lemma DecisionsAreLegal(site: Site, lot: Lot, step: Step)
    requires SiteValid(site)
    ensures Legal(site, lot, Decide(site, lot, step).effect)
    ensures Ordinary(step) ==> OrdinaryEffect(Decide(site, lot, step).effect)
  {
    hide First, Count, NormalizePlate;
    match step
    case CheckIn(req, outside) => CheckInIsLegal(site, lot, req, outside);
    case _ =>
  }

  // ---------------------------------------------------------------------------------------
  // Counters equal the vehicles in the lot
  // ---------------------------------------------------------------------------------------

  function InLotAt(site: Site, key: CounterKey): Session -> bool {
    (s: Session) => Active(s.status) && KeyOf(site, s) == key
  }

  function InLot(site: Site, lot: Lot, key: CounterKey): nat { Count(lot.sessions, InLotAt(site, key)) }

  ghost predicate Balanced(site: Site, lot: Lot) {
    forall key :: Occupied(lot, key) == InLot(site, lot, key)
  }

  /** How an ordinary step moves the number of vehicles in the lot for one counter. */
  lemma InLotAfter(site: Site, lot: Lot, e: Effect, key: CounterKey)
    requires Legal(site, lot, e) && OrdinaryEffect(e)
    ensures InLot(site, Apply(site, lot, e), key)
         == InLot(site, lot, key)
            + (if e.Admit? && KeyOf(site, e.session) == key then 1 else 0)
            - (if e.Close? && KeyOf(site, lot.sessions[e.row]) == key then 1 else 0)
    ensures e.Close? && KeyOf(site, lot.sessions[e.row]) == key ==> InLot(site, lot, key) >= 1
  {
    hide Count, Upper, LimitAt;
    var p := InLotAt(site, key);
    match e
    case Admit(s) => CountAppend(lot.sessions, p, s);
    case Hold(row, fee, lane, k) => CountUpdate(lot.sessions, p, row, Held(lot.sessions[row], fee, lane, k));
    case Close(row, fee, lane, keys) =>
      CountUpdate(lot.sessions, p, row, Closed(lot.sessions[row], fee, lane, keys));
      if p(lot.sessions[row]) {
        CountPositive(lot.sessions, p, row);
      }
    case _ =>
  }

  lemma OccupiedAfter(site: Site, lot: Lot, e: Effect, key: CounterKey)
    requires Legal(site, lot, e) && OrdinaryEffect(e)
    ensures Occupied(Apply(site, lot, e), key)
         == if e.Admit? && KeyOf(site, e.session) == key then Occupied(lot, key) + 1
            else if e.Close? && KeyOf(site, lot.sessions[e.row]) == key && Occupied(lot, key) > 0 then
              Occupied(lot, key) - 1
            else Occupied(lot, key)
  {
    hide Count, Upper, LimitAt;
  }

  lemma OrdinaryKeepsBalance(site: Site, lot: Lot, e: Effect)
    requires Legal(site, lot, e) && OrdinaryEffect(e) && Balanced(site, lot)
    ensures Balanced(site, Apply(site, lot, e))
    ensures e.Close? ==> Occupied(lot, KeyOf(site, lot.sessions[e.row])) > 0
  {
    hide Apply, InLot, Occupied, LimitAt, Upper;
    forall key ensures Occupied(Apply(site, lot, e), key) == InLot(site, Apply(site, lot, e), key) {
      InLotAfter(site, lot, e, key);
      OccupiedAfter(site, lot, e, key);
    }
    if e.Close? {
      InLotAfter(site, lot, e, KeyOf(site, lot.sessions[e.row]));
    }
  }

  /** On every run of check-in, check-out, payment and emergency steps, each counter equals the
      number of its vehicles in the lot, and no decrement meets the clamp at zero. */
  lemma {:induction false} CountersCountVehicles(site: Site, lot: Lot, steps: seq<Step>)
    requires SiteValid(site) && Balanced(site, lot) && AllOrdinary(steps)
    ensures Balanced(site, Run(site, lot, steps))
    ensures steps != [] ==>
              var before := Run(site, lot, steps[..|steps| - 1]);
              var e := Decide(site, before, steps[|steps| - 1]).effect;
              Balanced(site, before)
              && (e.Close? ==> e.row < |before.sessions| && Occupied(before, KeyOf(site, before.sessions[e.row])) > 0)
  {
    if steps != [] {
      var before := Run(site, lot, steps[..|steps| - 1]);
      CountersCountVehicles(site, lot, steps[..|steps| - 1]);
      DecisionsAreLegal(site, before, steps[|steps| - 1]);
      OrdinaryKeepsBalance(site, before, Decide(site, before, steps[|steps| - 1]).effect);
    }
  }

  lemma EmptyLotIsBalanced(site: Site)
    ensures Balanced(site, EMPTY_LOT)
  {
  }

  // ---------------------------------------------------------------------------------------
  // The ledger
  // ---------------------------------------------------------------------------------------

  /** Replaying the ledger of a counter: deltas added up, never below zero. */
  function ClampedFold(ledger: seq<CounterEvent>, key: CounterKey): int {
    if ledger == [] then 0
    else
      var n := |ledger| - 1;
      var before := ClampedFold(ledger[..n], key);
      if ledger[n].key == key then Max(0, before + ledger[n].delta) else before
  }

  /** The plain sum of the deltas. */
  function Sum(ledger: seq<CounterEvent>, key: CounterKey): int {
    if ledger == [] then 0
    else
      var n := |ledger| - 1;
      Sum(ledger[..n], key) + if ledger[n].key == key then ledger[n].delta else 0
  }

  /** A lower bound of all prefix sums that one of them meets. */
  ghost predicate IsLowestSum(ledger: seq<CounterEvent>, key: CounterKey, low: int) {
    && (forall k :: 0 <= k <= |ledger| ==> low <= Sum(ledger[..k], key))
    && (exists k :: 0 <= k <= |ledger| && low == Sum(ledger[..k], key))
  }

  /** The fold in closed form: the sum of all deltas less the lowest prefix sum, the empty one
      included. */
  lemma {:induction false} FoldInClosedForm(ledger: seq<CounterEvent>, key: CounterKey) returns (low: int)
    ensures IsLowestSum(ledger, key, low) && low <= 0
    ensures ClampedFold(ledger, key) == Sum(ledger, key) - low
  {
    if ledger == [] {
      low := 0;
      assert ledger[..0] == [];
    } else {
      var n := |ledger| - 1;
      var shorter := ledger[..n];
      var before := FoldInClosedForm(shorter, key);
      low := Min(before, Sum(ledger, key));
      assert forall k :: 0 <= k <= n ==> shorter[..k] == ledger[..k];
      assert ledger[..|ledger|] == ledger;
      forall k | 0 <= k <= |ledger| ensures low <= Sum(ledger[..k], key) {
        if k <= n {
          assert before <= Sum(shorter[..k], key);
        }
      }
      if low == before {
        var k :| 0 <= k <= n && before == Sum(shorter[..k], key);
        assert low == Sum(ledger[..k], key);
      } else {
        assert low == Sum(ledger[..|ledger|], key);
      }
    }
  }

  ghost predicate LedgerExplains(lot: Lot) {
    forall key :: Occupied(lot, key) == ClampedFold(lot.ledger, key)
  }

  lemma {:induction false} FoldIsNonNegative(ledger: seq<CounterEvent>, key: CounterKey)
    ensures ClampedFold(ledger, key) >= 0
  {
    if ledger != [] {
      FoldIsNonNegative(ledger[..|ledger| - 1], key);
    }
  }

  lemma LoggedIsExplained(lot: Lot, key: CounterKey, occupied: int, delta: int, session: Option<nat>)
    requires LedgerExplains(lot) && occupied == Max(0, Occupied(lot, key) + delta)
    ensures LedgerExplains(Logged(lot, key, occupied, delta, session))
  {
    var lot' := Logged(lot, key, occupied, delta, session);
    assert lot'.ledger[..|lot.ledger|] == lot.ledger;
    forall k ensures Occupied(lot', k) == ClampedFold(lot'.ledger, k) {
      assert Occupied(lot, k) == ClampedFold(lot.ledger, k);
    }
  }

  lemma AdjustedToIsExplained(lot: Lot, key: CounterKey, target: nat)
    requires LedgerExplains(lot)
    ensures LedgerExplains(AdjustedTo(lot, key, target))
  {
    hide ClampedFold;
    if Occupied(lot, key) == target {
      forall k ensures Occupied(AdjustedTo(lot, key, target), k) == Occupied(lot, k) {
      }
    } else {
      LoggedIsExplained(lot, key, target, target - Occupied(lot, key), None);
    }
  }

  lemma EffectIsExplained(site: Site, lot: Lot, e: Effect)
    requires Legal(site, lot, e) && LedgerExplains(lot)
    ensures LedgerExplains(Apply(site, lot, e))
  {
    hide ClampedFold, Upper, LimitAt, LedgerExplains;
    match e
    case Admit(s) =>
      var key := KeyOf(site, s);
      var lot1 := lot.(sessions := lot.sessions + [s]);
      SameCounters(lot, lot1);
      CountersNonNegative(lot, key);
      LoggedIsExplained(lot1, key, Occupied(lot, key) + 1, 1, Some(|lot.sessions|));
    case Hold(row, fee, lane, k) => SameCounters(lot, Apply(site, lot, e));
    case Close(row, fee, lane, keys) =>
      var lot1 := lot.(sessions := lot.sessions[row := Closed(lot.sessions[row], fee, lane, keys)]);
      var key := KeyOf(site, lot.sessions[row]);
      SameCounters(lot, lot1);
      CountersNonNegative(lot, key);
      LoggedIsExplained(lot1, key, Max(0, Occupied(lot, key) - 1), -1, Some(row));
    case AdjustBy(key, delta) => LoggedIsExplained(lot, key, Occupied(lot, key) + delta, delta, None);
    case Reconcile(building, cars, motorbikes, bicycles) =>
      var lot1 := AdjustedTo(lot, CounterKey(building, "CAR"), cars);
      var lot2 := AdjustedTo(lot1, CounterKey(building, "MOTORBIKE"), motorbikes);
      AdjustedToIsExplained(lot, CounterKey(building, "CAR"), cars);
      AdjustedToIsExplained(lot1, CounterKey(building, "MOTORBIKE"), motorbikes);
      AdjustedToIsExplained(lot2, CounterKey(building, "BICYCLE"), bicycles);
    case Unchanged =>
  }

  lemma SameCounters(lot: Lot, lot': Lot)
    requires LedgerExplains(lot) && lot'.counters == lot.counters && lot'.ledger == lot.ledger
    ensures LedgerExplains(lot')
  {
    forall k ensures Occupied(lot', k) == ClampedFold(lot'.ledger, k) {
      assert Occupied(lot, k) == ClampedFold(lot.ledger, k);
    }
  }

  lemma CountersNonNegative(lot: Lot, key: CounterKey)
    requires LedgerExplains(lot)
    ensures Occupied(lot, key) >= 0
  {
    FoldIsNonNegative(lot.ledger, key);
  }

  /** On every run, manual adjustments, reconciliations and underflowing decrements included, each
      counter is the replay of its ledger. */
  lemma {:induction false} LedgerExplainsCounters(site: Site, steps: seq<Step>)
    requires SiteValid(site)
    ensures LedgerExplains(Run(site, EMPTY_LOT, steps))
  {
    if steps != [] {
      var before := Run(site, EMPTY_LOT, steps[..|steps| - 1]);
      LedgerExplainsCounters(site, steps[..|steps| - 1]);
      DecisionsAreLegal(site, before, steps[|steps| - 1]);
      EffectIsExplained(site, before, Decide(site, before, steps[|steps| - 1]).effect);
    }
  }

  /** Every counter on every run, in closed form over the logged deltas. */
  lemma CounterInClosedForm(site: Site, steps: seq<Step>, key: CounterKey) returns (low: int)
    requires SiteValid(site)
    ensures var lot := Run(site, EMPTY_LOT, steps);
            && IsLowestSum(lot.ledger, key, low) && low <= 0
            && Occupied(lot, key) == Sum(lot.ledger, key) - low
  {
    LedgerExplainsCounters(site, steps);
    low := FoldInClosedForm(Run(site, EMPTY_LOT, steps).ledger, key);
  }

  function EventOf(row: nat, delta: int): CounterEvent -> bool {
    (e: CounterEvent) => e.session == Some(row) && e.delta == delta
  }

  /** The ledger has one entry per arrival and one per departure. */
  ghost predicate Accounted(lot: Lot) {
    forall row: nat ::
      && Count(lot.ledger, EventOf(row, 1)) == (if row < |lot.sessions| then 1 else 0)
      && Count(lot.ledger, EventOf(row, -1))
         == (if row < |lot.sessions| && lot.sessions[row].status == Completed then 1 else 0)
  }

  lemma AccountedAfterLogging(lot: Lot, key: CounterKey, occupied: int, delta: int, session: Option<nat>, row: nat)
    ensures var ledger' := Logged(lot, key, occupied, delta, session).ledger;
            && Count(ledger', EventOf(row, 1))
               == Count(lot.ledger, EventOf(row, 1)) + (if session == Some(row) && delta == 1 then 1 else 0)
            && Count(ledger', EventOf(row, -1))
               == Count(lot.ledger, EventOf(row, -1)) + (if session == Some(row) && delta == -1 then 1 else 0)
  {
    hide Count;
    CountAppend(lot.ledger, EventOf(row, 1), CounterEvent(key, delta, session));
    CountAppend(lot.ledger, EventOf(row, -1), CounterEvent(key, delta, session));
  }

  lemma AdjustedToKeepsEvents(lot: Lot, key: CounterKey, target: int, row: nat)
    ensures var lot' := AdjustedTo(lot, key, target);
            && lot'.sessions == lot.sessions
            && Count(lot'.ledger, EventOf(row, 1)) == Count(lot.ledger, EventOf(row, 1))
            && Count(lot'.ledger, EventOf(row, -1)) == Count(lot.ledger, EventOf(row, -1))
  {
    hide Count;
    if Occupied(lot, key) != target {
      AccountedAfterLogging(lot, key, target, target - Occupied(lot, key), None, row);
    }
  }

  lemma EffectIsAccounted(site: Site, lot: Lot, e: Effect)
    requires Legal(site, lot, e) && Accounted(lot)
    ensures Accounted(Apply(site, lot, e))
  {
    hide Count, Upper, LimitAt, Occupied;
    var lot' := Apply(site, lot, e);
    forall row: nat
      ensures Count(lot'.ledger, EventOf(row, 1)) == (if row < |lot'.sessions| then 1 else 0)
      ensures Count(lot'.ledger, EventOf(row, -1))
           == (if row < |lot'.sessions| && lot'.sessions[row].status == Completed then 1 else 0)
    {
      match e
      case Admit(s) =>
        var lot1 := lot.(sessions := lot.sessions + [s]);
        var key := KeyOf(site, s);
        AccountedAfterLogging(lot1, key, Occupied(lot, key) + 1, 1, Some(|lot.sessions|), row);
      case Close(r, fee, lane, keys) =>
        var lot1 := lot.(sessions := lot.sessions[r := Closed(lot.sessions[r], fee, lane, keys)]);
        var key := KeyOf(site, lot.sessions[r]);
        var occupied := Occupied(lot1, key);
        AccountedAfterLogging(lot1, key, if occupied > 0 then occupied - 1 else occupied, -1, Some(r), row);
      case AdjustBy(key, delta) => AccountedAfterLogging(lot, key, Occupied(lot, key) + delta, delta, None, row);
      case Reconcile(building, cars, motorbikes, bicycles) =>
        var lot1 := AdjustedTo(lot, CounterKey(building, "CAR"), cars);
        var lot2 := AdjustedTo(lot1, CounterKey(building, "MOTORBIKE"), motorbikes);
        AdjustedToKeepsEvents(lot, CounterKey(building, "CAR"), cars, row);
        AdjustedToKeepsEvents(lot1, CounterKey(building, "MOTORBIKE"), motorbikes, row);
        AdjustedToKeepsEvents(lot2, CounterKey(building, "BICYCLE"), bicycles, row);
      case _ =>
    }
  }

  // ---------------------------------------------------------------------------------------
  // Sessions
  // ---------------------------------------------------------------------------------------

  /** Committed sessions are parked, waiting for payment or completed; one that waits has an exit lane
      and a fee; stored plates are normalised. */
  ghost predicate SessionsSound(site: Site, lot: Lot) {
    forall i :: 0 <= i < |lot.sessions| ==>
      var s := lot.sessions[i];
      && s.status in {Parked, PaymentPending, Completed}
      && (s.status == PaymentPending ==> s.exitLane.Some? && s.fee > 0)
      && PlateStored(site, s) && s.vehicleType != ""
  }

  /** No two vehicles in the lot share a ticket, or a plate within a building. */
  ghost predicate NoDuplicates(lot: Lot) {
    forall i, j :: 0 <= i < j < |lot.sessions| && Active(lot.sessions[i].status) && Active(lot.sessions[j].status) ==>
      !Conflicting(lot.sessions[j], lot.sessions[i])
  }

  ghost predicate Sound(site: Site, lot: Lot) {
    LedgerExplains(lot) && Accounted(lot) && SessionsSound(site, lot) && NoDuplicates(lot)
  }

  lemma EffectKeepsSessions(site: Site, lot: Lot, e: Effect)
    requires Legal(site, lot, e) && SessionsSound(site, lot) && NoDuplicates(lot)
    ensures SessionsSound(site, Apply(site, lot, e)) && NoDuplicates(Apply(site, lot, e))
  {
    hide Occupied, Upper, LimitAt, NormalizePlate, AdjustedTo;
    match e
    case Reconcile(building, cars, motorbikes, bicycles) =>
      ReconciledSessions(lot, building, cars, motorbikes, bicycles);
    case _ =>
  }

  lemma ReconciledSessions(lot: Lot, building: Option<nat>, cars: nat, motorbikes: nat, bicycles: nat)
    ensures Reconciled(lot, building, cars, motorbikes, bicycles).sessions == lot.sessions
  {
  }

  /** On every run of any steps: counters replay their ledger, each session has one arrival event and
      one departure event exactly when it is completed, and active plates and tickets are unique. */
  lemma {:induction false} RunIsSound(site: Site, steps: seq<Step>)
    requires SiteValid(site)
    ensures Sound(site, Run(site, EMPTY_LOT, steps))
  {
    if steps != [] {
      var before := Run(site, EMPTY_LOT, steps[..|steps| - 1]);
      RunIsSound(site, steps[..|steps| - 1]);
      DecisionsAreLegal(site, before, steps[|steps| - 1]);
      var e := Decide(site, before, steps[|steps| - 1]).effect;
      EffectIsExplained(site, before, e);
      EffectIsAccounted(site, before, e);
      EffectKeepsSessions(site, before, e);
    }
  }
}
