/** What each price field and each part of a stay adds to the fee
    (calculate_fee in backend/app/modules/pricing/domain.py). */
module FeeLaws {
  import opened Common
  import opened Fees

  // ---------------------------------------------------------------------------------------
  // Nights, surcharges and the discount
  // ---------------------------------------------------------------------------------------

  predicate BeginsBetween(d: int, first: int, last: int) { first < d <= last }

  /** The days that begin after one day and up to another: one for each midnight passed. */
  function DaysBegun(first: int, last: int): set<int> {
    set d | first < d <= last && BeginsBetween(d, first, last)
  }

  lemma {:induction false} DaysBegunCount(first: int, last: int)
    ensures |DaysBegun(first, last)| == Max(0, last - first)
    decreases last - first
  {
    if first < last {
      DaysBegunCount(first, last - 1);
      assert forall d :: BeginsBetween(d, first, last) <==> BeginsBetween(d, first, last - 1) || d == last;
      assert DaysBegun(first, last) == DaysBegun(first, last - 1) + {last};
    } else {
      assert DaysBegun(first, last) == {};
    }
  }

  /** The instant from which nights are counted: check-in, or the end of the pass if that is later. */
  function NightsFrom(s: Snapshot, checkIn: int): int {
    if s.passUntil.Some? then Max(checkIn, s.passUntil.value) else checkIn
  }

  /** Every local midnight of the stay costs one overnight fee, undiscounted. */
  lemma EveryMidnightIsCharged(s: Snapshot, day: DayOf, checkIn: int, checkOut: int,
                               lost: bool, overtime: bool, extraFree: int)
    requires Valid(s)
    ensures var midnights := DaysBegun(day(NightsFrom(s, checkIn)), day(checkOut));
            Total(s, day, checkIn, checkOut, lost, overtime, extraFree)
            == Total(s.(overnightFee := 0), day, checkIn, checkOut, lost, overtime, extraFree)
               + |midnights| * s.overnightFee
  {
    hide DayCharge, Net;
    var dark := s.(overnightFee := 0);
    DaysBegunCount(day(NightsFrom(s, checkIn)), day(checkOut));
    assert Nights(dark, day, checkIn, checkOut) * dark.overnightFee == 0;
    SameCharge(s, dark, checkIn, checkOut, extraFree);
  }

  /** Fields that the base charge does not read. */
  lemma SameCharge(s: Snapshot, s': Snapshot, checkIn: int, checkOut: int, extraFree: int)
    requires Valid(s) && Valid(s')
    requires s' == s.(discountPercent := s'.discountPercent, overnightFee := s'.overnightFee,
                      lostTicketFee := s'.lostTicketFee, overtimeFee := s'.overtimeFee)
    ensures BaseCharge(s', checkIn, checkOut, extraFree) == BaseCharge(s, checkIn, checkOut, extraFree)
  {
    hide CeilDiv;
  }

  /** A lost ticket and overtime add their fees, undiscounted. */
  lemma SurchargesAreAdded(s: Snapshot, day: DayOf, checkIn: int, checkOut: int,
                           lost: bool, overtime: bool, extraFree: int)
    requires Valid(s)
    ensures Total(s, day, checkIn, checkOut, lost, overtime, extraFree)
         == Total(s, day, checkIn, checkOut, false, false, extraFree)
            + (if lost then s.lostTicketFee else 0) + (if overtime then s.overtimeFee else 0)
  {
    hide BaseCharge, Net;
  }

  /** The discount takes off the largest whole amount within the percentage of what it applies to. */
  lemma DiscountIsRoundedDown(s: Snapshot, day: DayOf, checkIn: int, checkOut: int, extraFree: int)
    returns (discount: int)
    requires Valid(s) && s.overnightFee == 0
    ensures var full := Total(s.(discountPercent := 0), day, checkIn, checkOut, false, false, extraFree);
            && Total(s, day, checkIn, checkOut, false, false, extraFree) == full - discount
            && 100 * discount <= s.discountPercent * full < 100 * (discount + 1)
  {
    hide BaseCharge;
    var base := BaseCharge(s, checkIn, checkOut, extraFree);
    SameCharge(s, s.(discountPercent := 0), checkIn, checkOut, extraFree);
    discount := base * s.discountPercent / 100;
    assert base * 0 / 100 == 0;
    assert Nights(s, day, checkIn, checkOut) * s.overnightFee == 0;
  }

  // ---------------------------------------------------------------------------------------
  // Free minutes and passes
  // ---------------------------------------------------------------------------------------

  /** Extra free minutes are free minutes. */
  lemma ExtraMinutesAreFree(s: Snapshot, day: DayOf, checkIn: int, checkOut: int,
                            lost: bool, overtime: bool, extraFree: nat)
    requires Valid(s)
    ensures Total(s, day, checkIn, checkOut, lost, overtime, extraFree)
         == Total(s.(freeMinutes := s.freeMinutes + extraFree), day, checkIn, checkOut, lost, overtime, 0)
  {
    hide CeilDiv, Minutes, StayCharge, Net, Nights;
    var s' := s.(freeMinutes := s.freeMinutes + extraFree);
    var n := ChargedMinutes(s, checkIn, checkOut, extraFree);
    assert ChargedMinutes(s', checkIn, checkOut, 0) == n;
    SameStay(s, s', n);
    SameNights(s, s', day, checkIn, checkOut);
  }

  lemma SameStay(s: Snapshot, s': Snapshot, n: nat)
    requires Valid(s) && Valid(s')
    requires s' == s.(freeMinutes := s'.freeMinutes, kind := s'.kind, passUntil := s'.passUntil)
    ensures StayCharge(s', n) == StayCharge(s, n)
  {
    hide CeilDiv;
  }

  lemma SameNights(s: Snapshot, s': Snapshot, day: DayOf, checkIn: int, checkOut: int)
    requires s' == s.(freeMinutes := s'.freeMinutes)
    ensures Nights(s', day, checkIn, checkOut) == Nights(s, day, checkIn, checkOut)
  {
  }

  lemma MinutesLater(from: int, to: int, minutes: int)
    ensures Minutes(from + minutes * TICKS_PER_MINUTE, to) == Minutes(from, to) - minutes
  {
  }

  lemma ChargedAfterFree(s: Snapshot, checkIn: int, checkOut: int)
    requires s.passUntil.None?
    ensures ChargedMinutes(s, checkIn, checkOut, 0)
         == ChargedMinutes(s.(freeMinutes := 0), checkIn + s.freeMinutes * TICKS_PER_MINUTE, checkOut, 0)
  {
    hide Minutes;
    MinutesLater(checkIn, checkOut, s.freeMinutes);
  }

  /** Free minutes are taken off the start of the stay: charging begins when they are over. */
  lemma FreeMinutesComeFirst(s: Snapshot, day: DayOf, checkIn: int, checkOut: int)
    requires Valid(s) && s.overnightFee == 0 && s.passUntil.None?
    ensures Total(s, day, checkIn, checkOut, false, false, 0)
         == Total(s.(freeMinutes := 0), day, checkIn + s.freeMinutes * TICKS_PER_MINUTE, checkOut, false, false, 0)
  {
    hide Minutes, CeilDiv, Net, StayCharge, Nights, ChargedMinutes;
    var after, start := s.(freeMinutes := 0), checkIn + s.freeMinutes * TICKS_PER_MINUTE;
    ChargedAfterFree(s, checkIn, checkOut);
    SameStay(s, after, ChargedMinutes(s, checkIn, checkOut, 0));
    assert Nights(s, day, checkIn, checkOut) * 0 == 0 == Nights(after, day, start, checkOut) * 0;
  }

  /** A daily or monthly pass covers the stay up to its end; from then on, or from a later check-in, the
      stay is charged by the hour. */
  lemma PassCoversUntilItsEnd(s: Snapshot, day: DayOf, checkIn: int, checkOut: int,
                              lost: bool, overtime: bool, extraFree: int)
    requires Valid(s) && s.passUntil.Some? && s.kind in {Daily, Monthly}
    ensures Total(s, day, checkIn, checkOut, lost, overtime, extraFree)
         == Total(s.(kind := Hourly, passUntil := None), day, Max(checkIn, s.passUntil.value), checkOut,
                  lost, overtime, extraFree)
  {
    hide CeilDiv, Net, Minutes, StayCharge;
    var hourly, from := s.(kind := Hourly, passUntil := None), Max(checkIn, s.passUntil.value);
    assert ChargedMinutes(hourly, from, checkOut, extraFree) == ChargedMinutes(s, checkIn, checkOut, extraFree);
    SameStay(s, hourly, ChargedMinutes(s, checkIn, checkOut, extraFree));
  }

  /** An hourly or night ticket is not covered by a pass: the end of one only moves the nights. */
  lemma HoursIgnoreThePass(s: Snapshot, day: DayOf, checkIn: int, checkOut: int, extraFree: int)
    requires Valid(s) && s.kind in {Hourly, Night} && s.overnightFee == 0
    ensures Total(s, day, checkIn, checkOut, false, false, extraFree)
         == Total(s.(passUntil := None), day, checkIn, checkOut, false, false, extraFree)
  {
    hide CeilDiv, Net, StayCharge, Nights, Minutes;
    SameStay(s, s.(passUntil := None), ChargedMinutes(s, checkIn, checkOut, extraFree));
    assert Nights(s, day, checkIn, checkOut) * 0 == 0 == Nights(s.(passUntil := None), day, checkIn, checkOut) * 0;
  }

  // ---------------------------------------------------------------------------------------
  // The price of time
  // ---------------------------------------------------------------------------------------

  /** A snapshot in which only time costs anything. */
  predicate Plain(s: Snapshot) {
    s.discountPercent == s.freeMinutes == s.overnightFee == 0 && s.passUntil.None?
  }

  lemma PlainTotal(s: Snapshot, day: DayOf, checkIn: int, checkOut: int)
    requires Valid(s) && Plain(s)
    ensures Total(s, day, checkIn, checkOut, false, false, 0) == BaseCharge(s, checkIn, checkOut, 0)
    ensures ChargedMinutes(s, checkIn, checkOut, 0) == Max(0, Minutes(checkIn, checkOut))
  {
    hide BaseCharge, Minutes;
    assert BaseCharge(s, checkIn, checkOut, 0) * 0 / 100 == 0;
    assert Nights(s, day, checkIn, checkOut) * 0 == 0;
  }

  /** The whole minutes of a stay cover it, and no fewer do. */
  lemma MinutesCover(from: int, to: int, minutes: int)
    ensures Minutes(from, to) <= minutes <==> to - from <= minutes * TICKS_PER_MINUTE
  {
  }

  /** Up to a day, an hourly stay costs the first fee and the fewest blocks that cover the rest, up to the
      daily cap. */
  lemma OneDayCosts(s: Snapshot, day: DayOf, checkIn: int, checkOut: int) returns (blocks: nat)
    requires Valid(s) && Plain(s) && s.kind in {Hourly, Night}
    requires 0 < checkOut - checkIn <= 1440 * TICKS_PER_MINUTE
    ensures var amount := s.initialFee + blocks * s.blockFee;
            Total(s, day, checkIn, checkOut, false, false, 0)
            == if s.dailyCap.Some? && s.dailyCap.value < amount then s.dailyCap.value else amount
    ensures checkOut - checkIn <= (s.initialMinutes + blocks * s.blockMinutes) * TICKS_PER_MINUTE
    ensures forall fewer: nat :: fewer < blocks ==>
              checkOut - checkIn > (s.initialMinutes + fewer * s.blockMinutes) * TICKS_PER_MINUTE
  {
    hide DayCharge, Minutes, Total, CeilDiv;
    PlainTotal(s, day, checkIn, checkOut);
    MinutesCover(checkIn, checkOut, 0);
    MinutesCover(checkIn, checkOut, DAY);
    var n := Minutes(checkIn, checkOut);
    assert 0 < n <= DAY;
    StayOfOneDay(s, n);
    blocks := DayChargeIsFewestBlocks(s, n);
    MinutesCover(checkIn, checkOut, s.initialMinutes + blocks * s.blockMinutes);
    forall fewer: nat | fewer < blocks
      ensures checkOut - checkIn > (s.initialMinutes + fewer * s.blockMinutes) * TICKS_PER_MINUTE
    {
      assert !Covers(s, fewer, n);
      MinutesCover(checkIn, checkOut, s.initialMinutes + fewer * s.blockMinutes);
    }
  }

  lemma StayOfOneDay(s: Snapshot, n: nat)
    requires Valid(s) && 0 < n <= DAY
    ensures StayCharge(s, n) == DayCharge(s, n)
  {
    hide DayCharge;
    if n == DAY {
      assert n / DAY == 1 && n % DAY == 0;
    } else {
      assert n / DAY == 0 && n % DAY == n;
    }
  }

  /** Every further day costs a full day. */
  lemma FurtherDaysCost(s: Snapshot, day: DayOf, checkIn: int, checkOut: int, days: nat)
    requires Valid(s) && Plain(s) && s.kind in {Hourly, Night} && checkIn <= checkOut
    ensures Total(s, day, checkIn, checkOut + days * 1440 * TICKS_PER_MINUTE, false, false, 0)
         == Total(s, day, checkIn, checkOut, false, false, 0)
            + days * Total(s, day, checkIn, checkIn + 1440 * TICKS_PER_MINUTE, false, false, 0)
  {
    hide DayCharge, Minutes, Total, CeilDiv, StayCharge;
    var later := checkOut + days * 1440 * TICKS_PER_MINUTE;
    PlainTotal(s, day, checkIn, checkOut);
    PlainTotal(s, day, checkIn, later);
    PlainTotal(s, day, checkIn, checkIn + 1440 * TICKS_PER_MINUTE);
    MinutesLater(checkIn, later, 0);
    LaterByDays(checkIn, checkOut, days);
    LaterByDays(checkIn, checkIn, 1);
    var n := Minutes(checkIn, checkOut);
    MinutesCover(checkIn, checkOut, -1);
    MinutesCover(checkIn, checkIn, -1);
    MinutesCover(checkIn, checkIn, 0);
    StayChargePeriodic(s, n, days);
    StayOfOneDay(s, DAY);
  }

  lemma LaterByDays(from: int, to: int, days: int)
    ensures Minutes(from, to + days * 1440 * TICKS_PER_MINUTE) == Minutes(from, to) + days * DAY
  {
    assert days * 1440 * TICKS_PER_MINUTE == (days * 1440) * TICKS_PER_MINUTE;
  }

  /** Without a pass a daily ticket costs the fewest days that cover the stay, and a monthly one the
      fewest months of thirty days. */
  lemma TicketsCostPeriods(s: Snapshot, day: DayOf, checkIn: int, checkOut: int) returns (periods: nat)
    requires Valid(s) && Plain(s) && s.kind in {Daily, Monthly}
    ensures Total(s, day, checkIn, checkOut, false, false, 0)
         == periods * if s.kind == Daily then s.dayPassFee else s.monthPassFee
    ensures var length := if s.kind == Daily then 1440 else 43200;
            && checkOut - checkIn <= periods * length * TICKS_PER_MINUTE
            && (periods > 0 ==> checkOut - checkIn > (periods - 1) * length * TICKS_PER_MINUTE)
  {
    hide Minutes, Total, StayCharge;
    PlainTotal(s, day, checkIn, checkOut);
    var length := if s.kind == Daily then DAY else MONTH;
    var n := Max(0, Minutes(checkIn, checkOut));
    periods := PeriodsCover(n, length);
    MinutesCover(checkIn, checkOut, periods * length);
    MinutesCover(checkIn, checkOut, (periods - 1) * length);
  }

  lemma PeriodsCover(n: nat, length: int) returns (periods: nat)
    requires length > 0
    ensures periods == CeilDiv(n, length) && n <= periods * length
    ensures periods > 0 ==> n > (periods - 1) * length >= 0
  {
    CeilDivMono(0, n, length);
    periods := CeilDiv(n, length);
    if periods > 0 {
      MulMono(0, periods - 1, length);
    }
  }

  // ---------------------------------------------------------------------------------------
  // The lines, code by code
  // ---------------------------------------------------------------------------------------

  /** What the lines of one code amount to. */
  function SumOf(lines: seq<FeeLine>, code: LineCode): int {
    if lines == [] then 0
    else
      var n := |lines| - 1;
      SumOf(lines[..n], code) + if lines[n].code == code then lines[n].amount else 0
  }

  lemma {:induction false} SumOfConcat(a: seq<FeeLine>, b: seq<FeeLine>, code: LineCode)
    ensures SumOf(a + b, code) == SumOf(a, code) + SumOf(b, code)
  {
    if b == [] {
      assert a + b == a;
    } else {
      SumOfConcat(a, b[..|b| - 1], code);
      assert (a + b)[..|a + b| - 1] == a + b[..|b| - 1];
    }
  }

  lemma {:induction false} SumOfOneCode(lines: seq<FeeLine>, own: LineCode, code: LineCode)
    requires forall i :: 0 <= i < |lines| ==> lines[i].code == own
    ensures SumOf(lines, code) == if code == own then LineSum(lines) else 0
  {
    if lines != [] {
      SumOfOneCode(lines[..|lines| - 1], own, code);
    }
  }

  lemma SumOfLineIf(shown: bool, own: LineCode, amount: int, quantity: int, code: LineCode)
    ensures SumOf(LineIf(shown, own, amount, quantity), code) == if shown && code == own then amount else 0
  {
    var lines := LineIf(shown, own, amount, quantity);
    SumOfOneCode(lines, own, code);
  }

  /** The code under which time is charged. */
  function TimeCode(s: Snapshot): LineCode {
    if s.kind in {Daily, Monthly} then
      if s.passUntil.Some? then PassOverage else if s.kind == Daily then DayPass else MonthPass
    else ParkingDay
  }

  lemma TimeLines(s: Snapshot, checkIn: int, checkOut: int, extraFree: int, code: LineCode)
    requires Valid(s)
    ensures SumOf(BaseLines(s, checkIn, checkOut, extraFree), code)
         == if code == TimeCode(s) then BaseCharge(s, checkIn, checkOut, extraFree) else 0
  {
    hide DayCharge, ChargedMinutes, BaseCharge, LineSum, SumOf, CeilDiv;
    BaseLinesSum(s, checkIn, checkOut, extraFree);
    SumOfOneCode(BaseLines(s, checkIn, checkOut, extraFree), TimeCode(s), code);
  }

  lemma NightsAreDaysBegun(s: Snapshot, day: DayOf, checkIn: int, checkOut: int)
    ensures Nights(s, day, checkIn, checkOut) == |DaysBegun(day(NightsFrom(s, checkIn)), day(checkOut))|
  {
    DaysBegunCount(day(NightsFrom(s, checkIn)), day(checkOut));
  }

  /** Without nights and surcharges a fee is the discounted charge for time. */
  lemma DarkTotals(s: Snapshot, day: DayOf, checkIn: int, checkOut: int, extraFree: int)
    requires Valid(s)
    ensures var dark, base := s.(overnightFee := 0), BaseCharge(s, checkIn, checkOut, extraFree);
            && Total(dark, day, checkIn, checkOut, false, false, extraFree) == Net(base, s.discountPercent)
            && Total(dark.(discountPercent := 0), day, checkIn, checkOut, false, false, extraFree) == base
  {
    hide BaseCharge, Nights;
    var dark, base := s.(overnightFee := 0), BaseCharge(s, checkIn, checkOut, extraFree);
    SameCharge(s, dark, checkIn, checkOut, extraFree);
    SameCharge(s, dark.(discountPercent := 0), checkIn, checkOut, extraFree);
    assert base * 0 / 100 == 0;
    assert Nights(dark, day, checkIn, checkOut) * 0 == 0;
    assert Nights(dark.(discountPercent := 0), day, checkIn, checkOut) * 0 == 0;
  }

  /** Every line says what it is for: time under the code of the ticket, nights, the lost ticket, overtime
      and the discount each under their own, with the amounts that the whole fee owes to them. */
  lemma LinesByCode(s: Snapshot, day: DayOf, checkIn: int, checkOut: int,
                    lost: bool, overtime: bool, extraFree: int)
    requires Valid(s)
    ensures var lines := ItemisedLines(s, day, checkIn, checkOut, lost, overtime, extraFree);
            var dark := s.(overnightFee := 0);
            var time := Total(dark.(discountPercent := 0), day, checkIn, checkOut, false, false, extraFree);
            && SumOf(lines, TimeCode(s)) == time
            && SumOf(lines, Overnight)
               == |DaysBegun(day(NightsFrom(s, checkIn)), day(checkOut))| * s.overnightFee
            && SumOf(lines, LostTicket) == (if lost then s.lostTicketFee else 0)
            && SumOf(lines, Overtime) == (if overtime then s.overtimeFee else 0)
            && SumOf(lines, Discount) == Total(dark, day, checkIn, checkOut, false, false, extraFree) - time
  {
    hide BaseLines, BaseCharge, LineIf, SumOf, LineSum, Total, Net, Nights, ItemisedLines, DaysBegun;
    var base, nights := BaseCharge(s, checkIn, checkOut, extraFree), Nights(s, day, checkIn, checkOut);
    NightsAreDaysBegun(s, day, checkIn, checkOut);
    DarkTotals(s, day, checkIn, checkOut, extraFree);
    forall code: LineCode
      ensures SumOf(ItemisedLines(s, day, checkIn, checkOut, lost, overtime, extraFree), code)
           == (if code == TimeCode(s) then base else 0)
              + (if code == Overnight then nights * s.overnightFee else 0)
              + (if code == LostTicket && lost then s.lostTicketFee else 0)
              + (if code == Overtime && overtime then s.overtimeFee else 0)
              + (if code == Discount then Net(base, s.discountPercent) - base else 0)
    {
      ItemsOfCode(s, day, checkIn, checkOut, lost, overtime, extraFree, code);
    }
  }

  lemma ItemsOfCode(s: Snapshot, day: DayOf, checkIn: int, checkOut: int,
                    lost: bool, overtime: bool, extraFree: int, code: LineCode)
    requires Valid(s)
    ensures var base, nights := BaseCharge(s, checkIn, checkOut, extraFree), Nights(s, day, checkIn, checkOut);
            SumOf(ItemisedLines(s, day, checkIn, checkOut, lost, overtime, extraFree), code)
            == (if code == TimeCode(s) then base else 0)
               + (if code == Overnight then nights * s.overnightFee else 0)
               + (if code == LostTicket && lost then s.lostTicketFee else 0)
               + (if code == Overtime && overtime then s.overtimeFee else 0)
               + (if code == Discount then Net(base, s.discountPercent) - base else 0)
  {
    hide BaseLines, BaseCharge, LineIf, SumOf, LineSum, Nights;
    var base, nights := BaseCharge(s, checkIn, checkOut, extraFree), Nights(s, day, checkIn, checkOut);
    var time := BaseLines(s, checkIn, checkOut, extraFree);
    var n := LineIf(nights > 0 && s.overnightFee != 0, Overnight, nights * s.overnightFee, nights);
    var l := LineIf(lost && s.lostTicketFee != 0, LostTicket, s.lostTicketFee, 1);
    var o := LineIf(overtime && s.overtimeFee != 0, Overtime, s.overtimeFee, 1);
    var discount := base * s.discountPercent / 100;
    TimeLines(s, checkIn, checkOut, extraFree, code);
    SumOfLineIf(nights > 0 && s.overnightFee != 0, Overnight, nights * s.overnightFee, nights, code);
    SumOfLineIf(lost && s.lostTicketFee != 0, LostTicket, s.lostTicketFee, 1, code);
    SumOfLineIf(overtime && s.overtimeFee != 0, Overtime, s.overtimeFee, 1, code);
    SumOfLineIf(discount != 0, Discount, -discount, 1, code);
    SumOfConcat(n, l, code);
    SumOfConcat(n + l, o, code);
    SumOfConcat(time, n + l + o, code);
    SumOfConcat(time + (n + l + o), DiscountLines(base, s.discountPercent), code);
  }

  /** The quantity that a line shows: the day of the stay, the periods or nights it is for, or one. */
  predicate QuantityShown(s: Snapshot, midnights: nat, line: FeeLine, position: nat) {
    match line.code
    case ParkingDay => line.quantity == position + 1
    case PassOverage => line.quantity == position + 1
    case DayPass => line.amount == line.quantity * s.dayPassFee
    case MonthPass => line.amount == line.quantity * s.monthPassFee
    case Overnight => line.quantity == midnights
    case _ => line.quantity == 1
  }

  lemma LinesShowQuantities(s: Snapshot, day: DayOf, checkIn: int, checkOut: int,
                            lost: bool, overtime: bool, extraFree: int)
    requires Valid(s)
    ensures var lines := ItemisedLines(s, day, checkIn, checkOut, lost, overtime, extraFree);
            var midnights := |DaysBegun(day(NightsFrom(s, checkIn)), day(checkOut))|;
            forall i :: 0 <= i < |lines| ==> QuantityShown(s, midnights, lines[i], i)
  {
    hide DayCharge, CeilDiv, ChargedMinutes, LineSum, BaseCharge, LinesValid;
    DaysBegunCount(day(NightsFrom(s, checkIn)), day(checkOut));
    var base := BaseLines(s, checkIn, checkOut, extraFree);
    forall i | 0 <= i < |base| ensures QuantityShown(s, Nights(s, day, checkIn, checkOut), base[i], i) {
    }
  }
}
