/** Who is covered by a pass, from when to when, and what is charged
    (check_ticket_access in backend/app/modules/pricing/domain.py and calculate_parking_fee in
    backend/app/modules/checkout/service.py). */
module PassLaws {
  import opened Common
  import opened Fees
  import opened ParkingFee
  import FeeLaws
  import Plates

  /** The pass is for another zone. */
  predicate ElsewhereOnly(p: Pass, holder: Holder) { p.zone.Some? && holder.zone != p.zone }

  /** The plate and the ticket that the pass names, if it names any, are those of the vehicle. */
  predicate Identifies(p: Pass, holder: Holder, upper: Plates.CaseMap) {
    && (p.plate == "" || Plates.Upper(upper, p.plate) == Plates.Upper(upper, holder.plate))
    && (p.ticketCode == "" || holder.ticketCode == Some(p.ticketCode))
  }

  /** The pass holds at an instant: within its dates, or for a monthly one so many whole days after. */
  predicate Holds(p: Pass, at: int) {
    && p.validFrom <= at
    && (at <= p.validUntil || (p.kind == Monthly && at <= p.validUntil + p.graceDays * 1440 * 60_000_000))
  }

  /** Access by pass: refused in another zone, left for review when there is no pass or it does not
      identify the vehicle, and otherwise allowed exactly while the pass holds. The minutes of an invite
      are granted within the dates of the pass and not in the days of grace. */
  lemma AccessByPass(pass: Option<Pass>, at: int, holder: Holder, upper: Plates.CaseMap)
    requires pass.Some? ==> pass.value.validFrom <= pass.value.validUntil
    ensures CheckTicketAccess(pass, at, holder, upper).Success?
    ensures var access := CheckTicketAccess(pass, at, holder, upper).value;
            && (access.decision == Review <==>
                  pass.None? || (!ElsewhereOnly(pass.value, holder) && !Identifies(pass.value, holder, upper)))
            && (access.decision == Allow <==>
                  && pass.Some? && !ElsewhereOnly(pass.value, holder) && Identifies(pass.value, holder, upper)
                  && Holds(pass.value, at))
            && access.freeMinutes == (if access.decision == Allow && at <= pass.value.validUntil
                                      then pass.value.inviteFreeMinutes else 0)
            && (access.reason == NoTicket <==> pass.None?)
            && (access.reason == WrongZone <==> pass.Some? && ElsewhereOnly(pass.value, holder))
            && (access.reason in {PlateMismatch, TicketCodeMismatch} <==> pass.Some? && access.decision == Review)
            && (access.reason == InPass <==> access.decision == Allow && at <= pass.value.validUntil)
            && (access.reason == GracePeriod <==> access.decision == Allow && at > pass.value.validUntil)
            && (access.reason == NotYetValid ==> at < pass.value.validFrom)
            && (access.reason == Expired ==> at > pass.value.validUntil)
  {
    hide Plates.Upper;
  }

  /** A pass whose end precedes its start is an error, at any time and for any vehicle. */
  lemma ReversedPassIsAnError(pass: Option<Pass>, at: int, holder: Holder, upper: Plates.CaseMap)
    ensures CheckTicketAccess(pass, at, holder, upper).Failure?
       <==> pass.Some? && pass.value.validUntil < pass.value.validFrom
  {
    hide Plates.Upper;
  }

  /** The fee of a visit with the given snapshot. */
  function Charge(v: Visit, s: Snapshot, from: int, exit: int): int
    requires Valid(s)
  {
    Total(s, v.day, from, exit, v.lostTicket, false, 0)
  }

  /** What a visit is charged. The stored snapshot is charged without a pass, for daily and night tickets,
      and when the pass does not identify the vehicle. Otherwise the stay is charged by the hour, from
      check-in when the pass does not hold at the exit or is for another zone, and from the end of the
      pass alone when it holds. */
  lemma PassIsChargedExactly(v: Visit, exit: int)
    requires WellFormed(v)
    ensures var s := v.snapshot;
            var hourly := s.(kind := Hourly, passUntil := None);
            Fee(v, exit) ==
              if s.kind == Daily || s.kind == Night || v.pass.None? then Charge(v, s, v.checkIn, exit)
              else
                var p := v.pass.value;
                if ElsewhereOnly(p, v.holder) then Charge(v, hourly, v.checkIn, exit)
                else if !Identifies(p, v.holder, v.upper) then Charge(v, s, v.checkIn, exit)
                else if Holds(p, exit) then Charge(v, hourly, Max(v.checkIn, p.validUntil), exit)
                else Charge(v, hourly, v.checkIn, exit)
  {
    hide Total, Plates.Upper, CheckTicketAccess, Holds, ElsewhereOnly, Identifies;
    if v.pass.Some? && v.snapshot.kind in {Hourly, Monthly} {
      AccessByPass(v.pass, exit, v.holder, v.upper);
      FeeLaws.PassCoversUntilItsEnd(InPassSnapshot(v.snapshot, v.pass.value.validUntil), v.day, v.checkIn, exit,
                                    v.lostTicket, false, 0);
    }
  }

  /** A monthly pass for all zones, named for nobody, from day 0 to day 19 with three days of grace. */
  const TWENTY_DAYS := Pass(Monthly, "", "", None, 0, 19 * 86_400_000_000, 3, 0)

  /** The days of grace matter: at 5000 an hour, a stay from day 9 to day 20 costs one day of overage,
      and the same stay costs eleven days of hours under the same pass without grace. */
  lemma GraceIsWorthTenDays(v: Visit, exit: int)
    requires WellFormed(v) && v.snapshot == HOURLY_5000 && !v.lostTicket
    requires v.checkIn == 9 * 86_400_000_000 && exit == 20 * 86_400_000_000
    requires v.pass in {Some(TWENTY_DAYS), Some(TWENTY_DAYS.(graceDays := 0))}
    ensures Fee(v, exit) == if v.pass == Some(TWENTY_DAYS) then 120_000 else 1_320_000
  {
    hide Total, Fee;
    var p, day := v.pass.value, 86_400_000_000;
    PassIsChargedExactly(v, exit);
    var s := v.snapshot.(kind := Hourly, passUntil := None);
    assert Charge(v, s, 19 * day, exit) == 120_000 by {
      DayOf5000(s, v.day, 19 * day);
    }
    assert Charge(v, s, 9 * day, exit) == 1_320_000 by {
      DayOf5000(s, v.day, 9 * day);
      FeeLaws.FurtherDaysCost(s, v.day, 9 * day, 10 * day, 10);
    }
  }

  lemma DayOf5000(s: Snapshot, day: DayOf, from: int)
    requires s == HOURLY_5000
    ensures Total(s, day, from, from + 86_400_000_000, false, false, 0) == 120_000
  {
    hide Total;
    var blocks := FeeLaws.OneDayCosts(s, day, from, from + 86_400_000_000);
    var fewer: nat := 23;
    assert fewer < blocks ==> 86_400_000_000 > (s.initialMinutes + fewer * s.blockMinutes) * TICKS_PER_MINUTE;
    assert blocks == 23;
  }
}
