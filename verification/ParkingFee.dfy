/** The gate fee: a price snapshot, switched by the state of the vehicle's pass at the exit time
    (backend/app/modules/checkout/service.py and check_ticket_access in pricing/domain.py). */
module ParkingFee {
  import opened Common
  import opened Plates
  import opened Fees

  datatype Pass = Pass(kind: TicketKind, plate: string, ticketCode: string, zone: Option<nat>,
                       validFrom: int, validUntil: int, graceDays: nat, inviteFreeMinutes: nat)

  datatype Decision = Allow | Deny | Review

  datatype Reason = NoTicket | WrongZone | PlateMismatch | TicketCodeMismatch
                  | NotYetValid | InPass | GracePeriod | Expired

  datatype Access = Access(decision: Decision, reason: Reason, freeMinutes: nat)

  datatype AccessError = ReversedRange

  /** What the gate knows about the vehicle; a missing plate is the empty string. */
  datatype Holder = Holder(plate: string, ticketCode: Option<string>, zone: Option<nat>)

  function GraceEnd(p: Pass): int { p.validUntil + p.graceDays * DAY * TICKS_PER_MINUTE }

  function CheckTicketAccess(pass: Option<Pass>, at: int, holder: Holder, upper: CaseMap)
    : Result<Access, AccessError>
  {
    if pass.None? then Success(Access(Review, NoTicket, 0))
    else
      var p := pass.value;
      if p.validUntil < p.validFrom then Failure(ReversedRange)
      else if p.zone.Some? && p.zone != holder.zone then Success(Access(Deny, WrongZone, 0))
      else if p.plate != "" && Upper(upper, holder.plate) != Upper(upper, p.plate) then
        Success(Access(Review, PlateMismatch, 0))
      else if p.ticketCode != "" && Some(p.ticketCode) != holder.ticketCode then
        Success(Access(Review, TicketCodeMismatch, 0))
      else if at < p.validFrom then Success(Access(Deny, NotYetValid, 0))
      else if at <= p.validUntil then Success(Access(Allow, InPass, p.inviteFreeMinutes))
      else if p.kind.Monthly? && at <= GraceEnd(p) then Success(Access(Allow, GracePeriod, 0))
      else Success(Access(Deny, Expired, 0))
  }

  /** A visit: the stored snapshot, what the gate knows, and the pass found for the vehicle. */
  datatype Visit = Visit(checkIn: int, snapshot: Snapshot, holder: Holder, pass: Option<Pass>,
                         lostTicket: bool, day: DayOf, upper: CaseMap)

  /** What the price-rule and subscription tables guarantee of a visit. */
  ghost predicate WellFormed(v: Visit) {
    && Valid(v.snapshot) && MonotoneDays(v.day)
    && (v.pass.Some? ==> v.pass.value.validFrom <= v.pass.value.validUntil)
  }

  function InPassSnapshot(s: Snapshot, until: int): Snapshot {
    s.(kind := Monthly, passUntil := Some(until))
  }

  function NoPassSnapshot(s: Snapshot): Snapshot { s.(kind := Hourly, passUntil := None) }

  /** The snapshot that is charged. A vehicle without a pass is not checked at all. */
  function ChargedSnapshot(v: Visit, exit: int): Snapshot {
    if v.snapshot.kind !in {Hourly, Monthly} || v.pass.None? then v.snapshot
    else
      var access := CheckTicketAccess(v.pass, exit, v.holder, v.upper);
      if access.Failure? || access.value.decision.Review? then v.snapshot
      else if access.value.decision.Allow? then InPassSnapshot(v.snapshot, v.pass.value.validUntil)
      else NoPassSnapshot(v.snapshot)
  }

  /** The fee charged at an exit time. */
  function Fee(v: Visit, exit: int): int
    requires Valid(v.snapshot)
  {
    Total(ChargedSnapshot(v, exit), v.day, v.checkIn, exit, v.lostTicket, false, 0)
  }

  lemma FeeIsNonNegative(v: Visit, exit: int)
    requires Valid(v.snapshot)
    ensures Fee(v, exit) >= 0
  {
    TotalIsNonNegative(ChargedSnapshot(v, exit), v.day, v.checkIn, exit, v.lostTicket, false, 0);
  }

  method CalculateParkingFee(v: Visit, exit: int) returns (r: Result<int, FeeError>)
    requires WellFormed(v)
    ensures r == if exit < v.checkIn then Failure(CheckOutBeforeCheckIn) else Success(Fee(v, exit))
  {
    var snapshot := v.snapshot;
    if snapshot.kind in {Hourly, Monthly} && v.pass.Some? {
      var access := CheckTicketAccess(v.pass, exit, v.holder, v.upper);
      if access.Success? {
        match access.value.decision
        case Allow =>
          snapshot := snapshot.(kind := Monthly, passUntil := Some(v.pass.value.validUntil));
        case Deny =>
          snapshot := snapshot.(kind := Hourly, passUntil := None);
        case Review =>
      }
    }
    var fee := CalculateFee(v.checkIn, exit, snapshot, v.day, v.lostTicket, false, 0);
    r := match fee case Success(f) => Success(f.total) case Failure(e) => Failure(e);
  }

  /** The visit's vehicle holds a pass that identifies it, so that time decides. */
  predicate TimeDecides(v: Visit) {
    && v.snapshot.kind in {Hourly, Monthly} && v.pass.Some?
    && var p := v.pass.value;
       && !(p.zone.Some? && p.zone != v.holder.zone)
       && !(p.plate != "" && Upper(v.upper, v.holder.plate) != Upper(v.upper, p.plate))
       && !(p.ticketCode != "" && Some(p.ticketCode) != v.holder.ticketCode)
  }

  /** Losing the pass never makes the same stay cheaper. */
  lemma LosingThePassCostsMore(s: Snapshot, until: int, day: DayOf, checkIn: int, exit: int, lost: bool)
    requires Valid(s) && MonotoneDays(day)
    ensures Total(InPassSnapshot(s, until), day, checkIn, exit, lost, false, 0)
         <= Total(NoPassSnapshot(s), day, checkIn, exit, lost, false, 0)
  {
    var inPass, noPass := InPassSnapshot(s, until), NoPassSnapshot(s);
    var n, n' := ChargedMinutes(inPass, checkIn, exit, 0), ChargedMinutes(noPass, checkIn, exit, 0);
    CeilDivMono(exit - Max(checkIn, until), exit - checkIn, TICKS_PER_MINUTE);
    assert n <= n';
    StayChargeMono(s, n, n');
    SameRates(s, inPass, n);
    SameRates(s, noPass, n');
    NetMono(StayCharge(s, n), StayCharge(s, n'), s.discountPercent);
    MulMono(Nights(inPass, day, checkIn, exit), Nights(noPass, day, checkIn, exit), s.overnightFee);
  }

  lemma SameRates(s: Snapshot, s': Snapshot, n: nat)
    requires Valid(s) && s' == s.(kind := s'.kind, passUntil := s'.passUntil)
    ensures StayCharge(s', n) == StayCharge(s, n)
  {
  }

  /** Within the pass only the lost-ticket surcharge is left. */
  lemma InPassIsFree(s: Snapshot, until: int, day: DayOf, checkIn: int, exit: int, lost: bool)
    requires Valid(s) && MonotoneDays(day) && exit <= until
    ensures Total(InPassSnapshot(s, until), day, checkIn, exit, lost, false, 0)
         == if lost then s.lostTicketFee else 0
  {
    var inPass := InPassSnapshot(s, until);
    CeilDivMono(exit - Max(checkIn, until), 0, TICKS_PER_MINUTE);
    assert ChargedMinutes(inPass, checkIn, exit, 0) == 0;
    assert Nights(inPass, day, checkIn, exit) == 0;
  }

  /** A later exit never costs less, through the switch from the pass to grace-period overage to
      full hourly charging, unless the pass begins between the two exits. */
  lemma LaterExitCostsMore(v: Visit, t: int, t': int)
    requires WellFormed(v) && v.checkIn <= t <= t'
    requires TimeDecides(v) ==> !(t < v.pass.value.validFrom <= t')
    ensures Fee(v, t) <= Fee(v, t')
  {
    var s, s' := ChargedSnapshot(v, t), ChargedSnapshot(v, t');
    FeeIsMonotone(s, s, v.day, v.checkIn, v.checkIn, t, t', v.lostTicket, false, 0, 0);
    if s != s' {
      var until := v.pass.value.validUntil;
      assert s == InPassSnapshot(v.snapshot, until) && s' == NoPassSnapshot(v.snapshot);
      LosingThePassCostsMore(v.snapshot, until, v.day, v.checkIn, t', v.lostTicket);
    }
  }

  /** A previewed fee is a lower bound on the fee charged later, when the pass has begun. */
  lemma PreviewIsALowerBound(v: Visit, preview: int, exit: int)
    requires WellFormed(v) && v.checkIn <= preview <= exit
    requires v.pass.Some? ==> v.pass.value.validFrom <= preview
    ensures Fee(v, preview) <= Fee(v, exit)
  {
    LaterExitCostsMore(v, preview, exit);
  }

  ghost predicate FeeNeverFalls(v: Visit)
    requires Valid(v.snapshot)
  {
    forall t, t' :: v.checkIn <= t <= t' ==> Fee(v, t) <= Fee(v, t')
  }

  /** The fee never falls over time exactly when the vehicle came in after its pass began, or
      nothing but the lost-ticket surcharge is due at the last instant before it begins. */
  lemma FeeFallsOnlyAtPassStart(v: Visit)
    requires WellFormed(v)
    ensures FeeNeverFalls(v) <==>
              (TimeDecides(v) && v.checkIn < v.pass.value.validFrom ==>
                Fee(v, v.pass.value.validFrom - 1) == if v.lostTicket then v.snapshot.lostTicketFee else 0)
  {
    if TimeDecides(v) && v.checkIn < v.pass.value.validFrom {
      var from, surcharge := v.pass.value.validFrom, if v.lostTicket then v.snapshot.lostTicketFee else 0;
      InPassIsFree(v.snapshot, v.pass.value.validUntil, v.day, v.checkIn, from, v.lostTicket);
      assert Fee(v, from) == surcharge;
      FeeAtLeastSurcharge(v, from - 1);
      if FeeNeverFalls(v) {
        assert Fee(v, from - 1) <= Fee(v, from);
      } else if Fee(v, from - 1) == surcharge {
        forall t, t' | v.checkIn <= t <= t' ensures Fee(v, t) <= Fee(v, t') {
          if t < from <= t' {
            LaterExitCostsMore(v, t, from - 1);
            LaterExitCostsMore(v, from, t');
          } else {
            LaterExitCostsMore(v, t, t');
          }
        }
      }
    } else {
      forall t, t' | v.checkIn <= t <= t' ensures Fee(v, t) <= Fee(v, t') {
        LaterExitCostsMore(v, t, t');
      }
    }
  }

  lemma FeeAtLeastSurcharge(v: Visit, t: int)
    requires WellFormed(v) && v.checkIn <= t
    ensures Fee(v, t) >= if v.lostTicket then v.snapshot.lostTicketFee else 0
  {
    var s := ChargedSnapshot(v, t);
    BaseChargeMono(s, s, v.checkIn, v.checkIn, t, t, 0, 0);
    NetMono(BaseCharge(s, v.checkIn, t, 0), BaseCharge(s, v.checkIn, t, 0), s.discountPercent);
    MulMono(0, Nights(s, v.day, v.checkIn, t), s.overnightFee);
  }

  /** A stretch of up to a day that costs nothing: a cap of zero, or no first fee and no block charged. */
  predicate FreeDay(s: Snapshot, chunk: int) {
    || s.dailyCap == Some(0)
    || (s.initialFee == 0 && (s.blockFee == 0 || chunk <= s.initialMinutes))
  }

  lemma DayChargeIsZeroExactly(s: Snapshot, chunk: int)
    requires Valid(s)
    ensures DayCharge(s, chunk) == 0 <==> FreeDay(s, chunk)
  {
    var over := Max(0, chunk - s.initialMinutes);
    var blocks := CeilDiv(over, s.blockMinutes);
    CeilDivMono(0, over, s.blockMinutes);
    MulMono(0, blocks, s.blockFee);
    if over > 0 && s.blockFee > 0 {
      MulMono(1, blocks, s.blockFee);
    } else if over == 0 {
      CeilDivMono(over, 0, s.blockMinutes);
      assert blocks == 0;
    }
  }

  lemma StayChargeIsZeroExactly(s: Snapshot, n: nat)
    requires Valid(s)
    ensures StayCharge(s, n) == 0 <==> n == 0 || FreeDay(s, Min(n, DAY))
  {
    hide DayCharge;
    DayChargeIsZeroExactly(s, Min(n, DAY));
    DayChargeMono(s, n % DAY, DAY);
    if n >= DAY {
      MulMono(1, n / DAY, DayCharge(s, DAY));
    } else {
      assert n / DAY == 0 && n % DAY == n;
    }
  }

  lemma NetIsZeroExactly(charge: int, percent: int)
    requires 0 <= charge && 0 <= percent <= 100
    ensures Net(charge, percent) == 0 <==> charge == 0 || percent == 100
  {
    if charge > 0 && percent < 100 {
      MulMono(percent, 99, charge);
    }
  }

  /** Nothing is charged by the hour for a stay: every minute is free, or discounted or priced at
      nothing, and no night is charged. Only the price and the times are read. */
  predicate FreeStay(s: Snapshot, day: DayOf, checkIn: int, exit: int) {
    var n := Minutes(checkIn, exit) - s.freeMinutes;
    && (n <= 0 || s.discountPercent == 100 || FreeDay(s, Min(n, DAY)))
    && (s.overnightFee == 0 || day(exit) <= day(checkIn))
  }

  lemma HourlyIsFreeExactly(s: Snapshot, day: DayOf, checkIn: int, exit: int, lost: bool)
    requires Valid(s)
    ensures Total(NoPassSnapshot(s), day, checkIn, exit, lost, false, 0) == (if lost then s.lostTicketFee else 0)
       <==> FreeStay(s, day, checkIn, exit)
  {
    hide StayCharge, Net;
    var hourly := NoPassSnapshot(s);
    var n, nights := ChargedMinutes(hourly, checkIn, exit, 0), Nights(hourly, day, checkIn, exit);
    SameRates(s, hourly, n);
    StayChargeMono(s, n, n);
    StayChargeIsZeroExactly(s, n);
    NetMono(StayCharge(s, n), StayCharge(s, n), s.discountPercent);
    NetIsZeroExactly(StayCharge(s, n), s.discountPercent);
    MulMono(0, nights, s.overnightFee);
    if nights > 0 {
      MulMono(1, nights, s.overnightFee);
    }
  }

  /** The fee never falls over time exactly when the vehicle came in after its pass began, or the stay
      up to the last instant before it begins is free at the hourly price. */
  lemma FeeNeverFallsExactly(v: Visit)
    requires WellFormed(v)
    ensures FeeNeverFalls(v) <==>
              (TimeDecides(v) && v.checkIn < v.pass.value.validFrom ==>
                 FreeStay(v.snapshot, v.day, v.checkIn, v.pass.value.validFrom - 1))
  {
    hide Total, FreeStay;
    FeeFallsOnlyAtPassStart(v);
    if TimeDecides(v) && v.checkIn < v.pass.value.validFrom {
      HourlyIsFreeExactly(v.snapshot, v.day, v.checkIn, v.pass.value.validFrom - 1, v.lostTicket);
    }
  }

  /** The calendar day in Vietnam, seven hours ahead. */
  const VIETNAM := (t: int) => (t + 7 * 60 * TICKS_PER_MINUTE) / (DAY * TICKS_PER_MINUTE)

  const HOURLY_5000 := Snapshot(Hourly, 0, 0, 60, 5000, 60, 5000, None, 0, 0, 0, 0, 0, None)

  lemma FirstHourCostsInitialFee(s: Snapshot, day: DayOf)
    requires Valid(s) && s.kind.Hourly? && s.passUntil.None? && s.initialMinutes == 60
    requires s.freeMinutes == s.discountPercent == s.overnightFee == 0
    ensures Total(s, day, 0, 60 * TICKS_PER_MINUTE, false, false, 0) == s.initialFee
  {
    assert Minutes(0, 60 * TICKS_PER_MINUTE) == 60;
    assert ChargedMinutes(s, 0, 60 * TICKS_PER_MINUTE, 0) == 60;
    assert CeilDiv(0, s.blockMinutes) == 0 by {
      CeilDivMono(0, 0, s.blockMinutes);
    }
    assert DayCharge(s, 60) == s.initialFee;
    assert StayCharge(s, 60) == s.initialFee;
  }

  /** The exception is real: at 5000 an hour, leaving an hour after check-in costs 5000 and leaving
      a minute later, when the pass has begun, costs nothing. */
  lemma FeeCanFall() returns (v: Visit, t: int, t': int)
    ensures WellFormed(v) && v.checkIn <= t <= t'
    ensures Fee(v, t) == 5000 && Fee(v, t') == 0
  {
    var end := 1000 * TICKS_PER_MINUTE;
    t, t' := 60 * TICKS_PER_MINUTE, 61 * TICKS_PER_MINUTE;
    var p := Pass(Monthly, "", "", None, t', end, 3, 0);
    v := Visit(0, HOURLY_5000, Holder("", None, None), Some(p), false, VIETNAM, (c: char) => [c]);
    FixedOffsetIsMonotone(7 * 60 * TICKS_PER_MINUTE);
    assert NoPassSnapshot(HOURLY_5000) == HOURLY_5000;
    assert ChargedSnapshot(v, t) == HOURLY_5000;
    FirstHourCostsInitialFee(HOURLY_5000, v.day);
    assert ChargedSnapshot(v, t') == InPassSnapshot(HOURLY_5000, end);
    InPassIsFree(HOURLY_5000, end, v.day, 0, t', false);
  }
}
