/** Fee arithmetic over a price snapshot (backend/app/modules/pricing/domain.py). */
module Fees {
  import opened Common

  // Instants are whole microseconds; money is whole dong.
  const TICKS_PER_MINUTE := 60_000_000
  const DAY := 1440
  const MONTH := 30 * 1440

  datatype TicketKind = Hourly | Daily | Monthly | Night

  datatype Snapshot = Snapshot(
    kind: TicketKind, discountPercent: int, freeMinutes: int,
    initialMinutes: int, initialFee: int, blockMinutes: int, blockFee: int,
    dailyCap: Option<int>, overnightFee: int, lostTicketFee: int, overtimeFee: int,
    dayPassFee: int, monthPassFee: int, passUntil: Option<int>)

  /** The field constraints of a stored snapshot. */
  predicate Valid(s: Snapshot) {
    && 0 <= s.discountPercent <= 100
    && 0 <= s.freeMinutes && 0 < s.initialMinutes && 0 < s.blockMinutes
    && 0 <= s.initialFee && 0 <= s.blockFee && 0 <= s.overnightFee
    && 0 <= s.lostTicketFee && 0 <= s.overtimeFee
    && 0 <= s.dayPassFee && 0 <= s.monthPassFee
    && (s.dailyCap.Some? ==> s.initialFee <= s.dailyCap.value)
  }

  datatype LineCode =
    PassOverage | DayPass | MonthPass | ParkingDay | Overnight | LostTicket | Overtime | Discount

  datatype FeeLine = FeeLine(code: LineCode, amount: int, quantity: int)

  datatype FeeResult = FeeResult(total: int, lines: seq<FeeLine>)

  datatype FeeError = CheckOutBeforeCheckIn | NegativeFreeMinutes

  /** The local calendar day of an instant, in the time zone of the check-in. */
  type DayOf = int -> int

  ghost predicate MonotoneDays(day: DayOf) { forall s, t :: s <= t ==> day(s) <= day(t) }

  /** Fixed-offset zones are monotone. */
  lemma FixedOffsetIsMonotone(offset: int)
    ensures MonotoneDays((t: int) => (t + offset) / (DAY * TICKS_PER_MINUTE))
  {
  }

  /** Division rounded up. */
  function CeilDiv(a: int, b: int): (r: int)
    requires b > 0
    ensures (r - 1) * b < a <= r * b
  {
    -((-a) / b)
  }

  function Minutes(from: int, to: int): int { CeilDiv(to - from, TICKS_PER_MINUTE) }

  // ---------------------------------------------------------------------------------------
  // One day, and many days
  // ---------------------------------------------------------------------------------------

  /** The charge for a stretch of at most a day: the first period, then whole blocks, capped. */
  function DayCharge(s: Snapshot, chunk: int): int
    requires Valid(s)
  {
    var blocks := CeilDiv(Max(0, chunk - s.initialMinutes), s.blockMinutes);
    var amount := s.initialFee + blocks * s.blockFee;
    if s.dailyCap.Some? then Min(amount, s.dailyCap.value) else amount
  }

  /** A number of blocks that, after the first period, covers a stretch. */
  predicate Covers(s: Snapshot, blocks: nat, chunk: int) {
    chunk <= s.initialMinutes + blocks * s.blockMinutes
  }

  function Capped(s: Snapshot, amount: int): int {
    if s.dailyCap.Some? then Min(amount, s.dailyCap.value) else amount
  }

  /** A stretch is charged for the fewest blocks that cover it. */
  lemma DayChargeIsFewestBlocks(s: Snapshot, chunk: int) returns (blocks: nat)
    requires Valid(s)
    ensures DayCharge(s, chunk) == Capped(s, s.initialFee + blocks * s.blockFee)
    ensures Covers(s, blocks, chunk)
    ensures forall fewer: nat :: fewer < blocks ==> !Covers(s, fewer, chunk)
  {
    var over := Max(0, chunk - s.initialMinutes);
    CeilDivMono(0, over, s.blockMinutes);
    blocks := CeilDiv(over, s.blockMinutes);
    forall fewer: nat | fewer < blocks ensures !Covers(s, fewer, chunk) {
      MulMono(fewer, blocks - 1, s.blockMinutes);
    }
  }

  /** The charge for any number of minutes: whole days, then the last part-day if there is one. */
  function StayCharge(s: Snapshot, n: nat): int
    requires Valid(s)
  {
    (n / DAY) * DayCharge(s, DAY) + if n % DAY > 0 then DayCharge(s, n % DAY) else 0
  }

  function LineSum(lines: seq<FeeLine>): int {
    if lines == [] then 0 else LineSum(lines[..|lines| - 1]) + lines[|lines| - 1].amount
  }

  lemma LineSumAppend(lines: seq<FeeLine>, line: FeeLine)
    ensures LineSum(lines + [line]) == LineSum(lines) + line.amount
  {
    assert (lines + [line])[..|lines|] == lines;
  }

  /** The lines of a stay: one for each day begun, numbered from one. */
  function StayLines(s: Snapshot, code: LineCode, n: nat): seq<FeeLine>
    requires Valid(s)
  {
    seq(CeilDiv(n, DAY), i requires 0 <= i < CeilDiv(n, DAY) =>
      FeeLine(code, DayCharge(s, Min(DAY, n - i * DAY)), i + 1))
  }

  method ParkingDayLines(s: Snapshot, billable: nat) returns (lines: seq<FeeLine>)
    requires Valid(s)
    ensures lines == StayLines(s, ParkingDay, billable)
  {
    lines := [];
    var remaining, dayIndex := billable, 0;
    while remaining != 0
      invariant 0 <= remaining <= billable
      invariant |lines| == dayIndex <= CeilDiv(billable, DAY)
      invariant remaining == Max(0, billable - dayIndex * DAY)
      invariant lines == StayLines(s, ParkingDay, billable)[..dayIndex]
    {
      var chunk := Min(remaining, DAY);
      var initial := if chunk != 0 then s.initialFee else 0;
      var blocks := CeilDiv(Max(0, chunk - s.initialMinutes), s.blockMinutes);
      var amount := initial + blocks * s.blockFee;
      if s.dailyCap.Some? {
        amount := Min(amount, s.dailyCap.value);
      }
      assert amount == DayCharge(s, chunk);
      lines := lines + [FeeLine(ParkingDay, amount, dayIndex + 1)];
      remaining := remaining - chunk;
      dayIndex := dayIndex + 1;
    }
  }

  method PassOverageLines(s: Snapshot, overage: nat) returns (lines: seq<FeeLine>)
    requires Valid(s)
    ensures lines == StayLines(s, PassOverage, overage)
  {
    lines := [];
    var remaining, dayIndex := overage, 0;
    while remaining != 0
      invariant 0 <= remaining <= overage
      invariant |lines| == dayIndex <= CeilDiv(overage, DAY)
      invariant remaining == Max(0, overage - dayIndex * DAY)
      invariant lines == StayLines(s, PassOverage, overage)[..dayIndex]
    {
      var chunk := Min(remaining, DAY);
      var blocks := CeilDiv(Max(0, chunk - s.initialMinutes), s.blockMinutes);
      var amount := s.initialFee + blocks * s.blockFee;
      if s.dailyCap.Some? {
        amount := Min(amount, s.dailyCap.value);
      }
      assert amount == DayCharge(s, chunk);
      lines := lines + [FeeLine(PassOverage, amount, dayIndex + 1)];
      remaining := remaining - chunk;
      dayIndex := dayIndex + 1;
    }
  }

  /** The minutes of the last day begun. */
  function LastPart(n: nat): (r: nat)
    requires n > 0
    ensures 0 < r <= DAY && r <= n && (n - r) % DAY == 0
    ensures n == CeilDiv(n - r, DAY) * DAY + r && CeilDiv(n, DAY) == CeilDiv(n - r, DAY) + 1
  {
    if n % DAY > 0 then n % DAY else DAY
  }

  lemma LastDay(s: Snapshot, n: nat)
    requires Valid(s) && n > 0
    ensures StayCharge(s, n) == StayCharge(s, n - LastPart(n)) + DayCharge(s, LastPart(n))
  {
    var q, full := n / DAY, DayCharge(s, DAY);
    if n % DAY == 0 {
      assert q * full == (q - 1) * full + full;
    }
  }

  lemma {:induction false} StayLinesSum(s: Snapshot, code: LineCode, n: nat)
    requires Valid(s)
    ensures LineSum(StayLines(s, code, n)) == StayCharge(s, n)
    ensures |StayLines(s, code, n)| == CeilDiv(n, DAY)
  {
    if n > 0 {
      var last := LastPart(n);
      LastDay(s, n);
      StayLinesSum(s, code, n - last);
      StayLinesExtend(s, code, n, last);
      LineSumAppend(StayLines(s, code, n - last), FeeLine(code, DayCharge(s, last), CeilDiv(n, DAY)));
    }
  }

  lemma StayLinesExtend(s: Snapshot, code: LineCode, n: nat, last: nat)
    requires Valid(s) && last <= DAY && last <= n
    requires CeilDiv(n, DAY) == CeilDiv(n - last, DAY) + 1
    requires n == CeilDiv(n - last, DAY) * DAY + last
    ensures StayLines(s, code, n)
         == StayLines(s, code, n - last) + [FeeLine(code, DayCharge(s, last), CeilDiv(n, DAY))]
  {
  }

  /** Adding whole days adds that many full-day charges. */
  lemma StayChargePeriodic(s: Snapshot, n: nat, k: nat)
    requires Valid(s)
    ensures StayCharge(s, n + k * DAY) == StayCharge(s, n) + k * DayCharge(s, DAY)
  {
    assert (n + k * DAY) / DAY == n / DAY + k && (n + k * DAY) % DAY == n % DAY;
  }

  // ---------------------------------------------------------------------------------------
  // Arithmetic
  // ---------------------------------------------------------------------------------------

  lemma MulMono(a: int, b: int, c: int)
    requires a <= b && 0 <= c
    ensures a * c <= b * c
  {
  }

  lemma CeilDivMono(a: int, b: int, c: int)
    requires a <= b && c > 0
    ensures CeilDiv(a, c) <= CeilDiv(b, c)
    ensures a >= 0 ==> CeilDiv(a, c) >= 0
  {
    var r, r' := CeilDiv(a, c), CeilDiv(b, c);
    if r' < r {
      MulMono(r', r - 1, c);
    }
    if r < 0 {
      MulMono(r, -1, c);
    }
  }

  lemma DayChargeMono(s: Snapshot, a: int, b: int)
    requires Valid(s) && a <= b
    ensures 0 <= DayCharge(s, a) <= DayCharge(s, b)
    ensures s.dailyCap.Some? ==> DayCharge(s, a) <= s.dailyCap.value
  {
    var p, q := Max(0, a - s.initialMinutes), Max(0, b - s.initialMinutes);
    CeilDivMono(p, q, s.blockMinutes);
    MulMono(CeilDiv(p, s.blockMinutes), CeilDiv(q, s.blockMinutes), s.blockFee);
    MulMono(0, CeilDiv(p, s.blockMinutes), s.blockFee);
  }

  lemma StayChargeMono(s: Snapshot, a: nat, b: nat)
    requires Valid(s) && a <= b
    ensures 0 <= StayCharge(s, a) <= StayCharge(s, b)
  {
    var full := DayCharge(s, DAY);
    DayChargeMono(s, a % DAY, DAY);
    DayChargeMono(s, b % DAY, DAY);
    MulMono(0, a / DAY, full);
    if a / DAY == b / DAY {
      DayChargeMono(s, a % DAY, b % DAY);
    } else {
      MulMono(a / DAY + 1, b / DAY, full);
      assert (a / DAY + 1) * full == (a / DAY) * full + full;
    }
  }

  /** With a daily cap, a stay never costs more than the cap for each day begun. */
  lemma StayChargeCapped(s: Snapshot, n: nat)
    requires Valid(s) && s.dailyCap.Some?
    ensures StayCharge(s, n) <= CeilDiv(n, DAY) * s.dailyCap.value
  {
    hide DayCharge;
    var cap, q, full := s.dailyCap.value, n / DAY, DayCharge(s, DAY);
    DayChargeMono(s, DAY, DAY);
    DayChargeMono(s, n % DAY, n % DAY);
    MulMono(full, cap, q);
    assert CeilDiv(n, DAY) == if n % DAY > 0 then q + 1 else q;
    assert (q + 1) * cap == q * cap + cap;
  }

  /** What is left of a charge after a percentage discount rounded down. */
  function Net(charge: int, percent: int): int { charge - charge * percent / 100 }

  lemma NetMono(a: int, b: int, percent: int)
    requires 0 <= a <= b && 0 <= percent <= 100
    ensures 0 <= Net(a, percent) <= Net(b, percent)
    ensures Net(a, percent) <= a
  {
    MulMono(0, a, percent);
    MulMono(percent, 100, a);
    MulMono(percent, 100, b - a);
    assert b * percent == a * percent + percent * (b - a);
    assert (a * percent + 100 * (b - a)) / 100 == a * percent / 100 + (b - a);
  }

  // ---------------------------------------------------------------------------------------
  // The fee of a stay
  // ---------------------------------------------------------------------------------------

  predicate HasPass(s: Snapshot) { s.passUntil.Some? && (s.kind.Daily? || s.kind.Monthly?) }

  /** The minutes that are charged: those after the pass ends if there is a pass, less free ones. */
  function ChargedMinutes(s: Snapshot, checkIn: int, checkOut: int, extraFree: int): nat {
    var from := if HasPass(s) then Max(checkIn, s.passUntil.value) else checkIn;
    Max(0, Minutes(from, checkOut) - s.freeMinutes - extraFree)
  }

  /** The discountable part of the fee. */
  function BaseCharge(s: Snapshot, checkIn: int, checkOut: int, extraFree: int): int
    requires Valid(s)
  {
    var n := ChargedMinutes(s, checkIn, checkOut, extraFree);
    if !HasPass(s) && s.kind.Daily? then CeilDiv(n, DAY) * s.dayPassFee
    else if !HasPass(s) && s.kind.Monthly? then CeilDiv(n, MONTH) * s.monthPassFee
    else StayCharge(s, n)
  }

  /** The nights charged: local midnights passed since check-in, or since the pass ended. */
  function Nights(s: Snapshot, day: DayOf, checkIn: int, checkOut: int): nat {
    var from := if s.passUntil.Some? then Max(checkIn, s.passUntil.value) else checkIn;
    Max(0, day(checkOut) - day(from))
  }

  function Surcharges(s: Snapshot, lost: bool, overtime: bool): int {
    (if lost then s.lostTicketFee else 0) + (if overtime then s.overtimeFee else 0)
  }

  function Total(s: Snapshot, day: DayOf, checkIn: int, checkOut: int,
                 lost: bool, overtime: bool, extraFree: int): int
    requires Valid(s)
  {
    Net(BaseCharge(s, checkIn, checkOut, extraFree), s.discountPercent)
    + Nights(s, day, checkIn, checkOut) * s.overnightFee
    + Surcharges(s, lost, overtime)
  }

  /** Only a discount line may be negative. */
  predicate LinesValid(lines: seq<FeeLine>) {
    forall i :: 0 <= i < |lines| ==>
      lines[i].quantity >= 0 && (lines[i].amount >= 0 || lines[i].code.Discount?)
  }

  /** A line that is left out when there is nothing to show on it. */
  function LineIf(shown: bool, code: LineCode, amount: int, quantity: int): (r: seq<FeeLine>)
    ensures LineSum(r) == if shown then amount else 0
    ensures quantity >= 0 && (amount >= 0 || code.Discount?) ==> LinesValid(r)
  {
    if shown then
      assert [FeeLine(code, amount, quantity)][..0] == [];
      [FeeLine(code, amount, quantity)]
    else []
  }

  /** The lines that the discount applies to. */
  function BaseLines(s: Snapshot, checkIn: int, checkOut: int, extraFree: int): seq<FeeLine>
    requires Valid(s)
  {
    var n := ChargedMinutes(s, checkIn, checkOut, extraFree);
    if HasPass(s) then StayLines(s, PassOverage, n)
    else if s.kind == Daily then
      LineIf(true, DayPass, CeilDiv(n, DAY) * s.dayPassFee, CeilDiv(n, DAY))
    else if s.kind == Monthly then
      LineIf(true, MonthPass, CeilDiv(n, MONTH) * s.monthPassFee, CeilDiv(n, MONTH))
    else StayLines(s, ParkingDay, n)
  }

  /** The lines that the discount does not apply to. */
  function SurchargeLines(s: Snapshot, nights: nat, lost: bool, overtime: bool): seq<FeeLine> {
    LineIf(nights > 0 && s.overnightFee != 0, Overnight, nights * s.overnightFee, nights)
    + LineIf(lost && s.lostTicketFee != 0, LostTicket, s.lostTicketFee, 1)
    + LineIf(overtime && s.overtimeFee != 0, Overtime, s.overtimeFee, 1)
  }

  /** The itemised fee. */
  function ItemisedLines(s: Snapshot, day: DayOf, checkIn: int, checkOut: int,
                         lost: bool, overtime: bool, extraFree: int): seq<FeeLine>
    requires Valid(s)
  {
    BaseLines(s, checkIn, checkOut, extraFree)
    + SurchargeLines(s, Nights(s, day, checkIn, checkOut), lost, overtime)
    + DiscountLines(BaseCharge(s, checkIn, checkOut, extraFree), s.discountPercent)
  }

  lemma {:induction false} LineSumConcat(a: seq<FeeLine>, b: seq<FeeLine>)
    ensures LineSum(a + b) == LineSum(a) + LineSum(b)
  {
    if b == [] {
      assert a + b == a;
    } else {
      LineSumConcat(a, b[..|b| - 1]);
      assert (a + b)[..|a + b| - 1] == a + b[..|b| - 1];
    }
  }

  lemma LinesConcat(a: seq<FeeLine>, b: seq<FeeLine>)
    requires LinesValid(a) && LinesValid(b)
    ensures LinesValid(a + b) && LineSum(a + b) == LineSum(a) + LineSum(b)
  {
    LineSumConcat(a, b);
  }

  lemma StayLinesValid(s: Snapshot, code: LineCode, n: nat)
    requires Valid(s)
    ensures LinesValid(StayLines(s, code, n))
  {
    forall i | 0 <= i < CeilDiv(n, DAY)
      ensures DayCharge(s, Min(DAY, n - i * DAY)) >= 0
    {
      DayChargeMono(s, Min(DAY, n - i * DAY), DAY);
    }
  }

  lemma BaseLinesSum(s: Snapshot, checkIn: int, checkOut: int, extraFree: int)
    requires Valid(s)
    ensures LineSum(BaseLines(s, checkIn, checkOut, extraFree))
         == BaseCharge(s, checkIn, checkOut, extraFree)
    ensures LinesValid(BaseLines(s, checkIn, checkOut, extraFree))
  {
    hide DayCharge, StayCharge, StayLines, LineSum, LinesValid, ChargedMinutes, LineIf;
    var n := ChargedMinutes(s, checkIn, checkOut, extraFree);
    var code := if HasPass(s) then PassOverage else ParkingDay;
    CeilDivMono(0, n, DAY);
    CeilDivMono(0, n, MONTH);
    StayLinesSum(s, code, n);
    StayLinesValid(s, code, n);
    MulMono(0, CeilDiv(n, DAY), s.dayPassFee);
    MulMono(0, CeilDiv(n, MONTH), s.monthPassFee);
  }

  lemma SurchargeLinesSum(s: Snapshot, nights: nat, lost: bool, overtime: bool)
    requires Valid(s)
    ensures LineSum(SurchargeLines(s, nights, lost, overtime))
         == nights * s.overnightFee + Surcharges(s, lost, overtime)
    ensures LinesValid(SurchargeLines(s, nights, lost, overtime))
  {
    var amount := nights * s.overnightFee;
    MulMono(0, nights, s.overnightFee);
    var a := LineIf(nights > 0 && s.overnightFee != 0, Overnight, amount, nights);
    assert LineSum(a) == amount;
    ThreeLines(a, LineIf(lost && s.lostTicketFee != 0, LostTicket, s.lostTicketFee, 1),
               LineIf(overtime && s.overtimeFee != 0, Overtime, s.overtimeFee, 1));
  }

  lemma ThreeLines(a: seq<FeeLine>, b: seq<FeeLine>, c: seq<FeeLine>)
    requires LinesValid(a) && LinesValid(b) && LinesValid(c)
    ensures LinesValid(a + b + c) && LineSum(a + b + c) == LineSum(a) + LineSum(b) + LineSum(c)
  {
    LinesConcat(a, b);
    LinesConcat(a + b, c);
  }

  function DiscountLines(charge: int, percent: int): seq<FeeLine> {
    var discount := charge * percent / 100;
    LineIf(discount != 0, Discount, -discount, 1)
  }

  lemma DiscountLinesSum(charge: int, percent: int)
    ensures LineSum(DiscountLines(charge, percent)) == Net(charge, percent) - charge
    ensures LinesValid(DiscountLines(charge, percent))
  {
  }

  lemma TotalIsNonNegative(s: Snapshot, day: DayOf, checkIn: int, checkOut: int,
                           lost: bool, overtime: bool, extraFree: int)
    requires Valid(s)
    ensures Total(s, day, checkIn, checkOut, lost, overtime, extraFree) >= 0
  {
    var base := BaseCharge(s, checkIn, checkOut, extraFree);
    BaseChargeMono(s, s, checkIn, checkIn, checkOut, checkOut, extraFree, extraFree);
    NetMono(base, base, s.discountPercent);
    MulMono(0, Nights(s, day, checkIn, checkOut), s.overnightFee);
  }

  /** The lines add up to the fee, and the record validators cannot reject them: the total is never
      negative and only the discount line is. */
  lemma LinesAddUp(s: Snapshot, day: DayOf, checkIn: int, checkOut: int,
                   lost: bool, overtime: bool, extraFree: int)
    requires Valid(s)
    ensures var lines := ItemisedLines(s, day, checkIn, checkOut, lost, overtime, extraFree);
            && LineSum(lines) == Total(s, day, checkIn, checkOut, lost, overtime, extraFree) >= 0
            && LinesValid(lines)
  {
    var base, nights := BaseCharge(s, checkIn, checkOut, extraFree), Nights(s, day, checkIn, checkOut);
    BaseLinesSum(s, checkIn, checkOut, extraFree);
    SurchargeLinesSum(s, nights, lost, overtime);
    DiscountLinesSum(base, s.discountPercent);
    ThreeLines(BaseLines(s, checkIn, checkOut, extraFree), SurchargeLines(s, nights, lost, overtime),
               DiscountLines(base, s.discountPercent));
    TotalIsNonNegative(s, day, checkIn, checkOut, lost, overtime, extraFree);
  }

  function FeeOf(s: Snapshot, day: DayOf, checkIn: int, checkOut: int,
                 lost: bool, overtime: bool, extraFree: int): (r: FeeResult)
    requires Valid(s)
    ensures r.total == LineSum(r.lines) >= 0 && LinesValid(r.lines)
  {
    LinesAddUp(s, day, checkIn, checkOut, lost, overtime, extraFree);
    FeeResult(Total(s, day, checkIn, checkOut, lost, overtime, extraFree),
              ItemisedLines(s, day, checkIn, checkOut, lost, overtime, extraFree))
  }

  method CalculateFee(checkIn: int, checkOut: int, s: Snapshot, day: DayOf,
                      lost: bool, overtime: bool, extraFree: int)
    returns (r: Result<FeeResult, FeeError>)
    requires Valid(s)
    ensures r.Failure? <==> checkOut < checkIn || extraFree < 0
    ensures r.Failure? ==> (r.error == CheckOutBeforeCheckIn <==> checkOut < checkIn)
    ensures r.Success? ==> r.value.total == Total(s, day, checkIn, checkOut, lost, overtime, extraFree)
    ensures r.Success? ==>
              r.value.lines == ItemisedLines(s, day, checkIn, checkOut, lost, overtime, extraFree)
  {
    hide Total, BaseCharge, BaseLines, SurchargeLines, LineIf, LineSum;
    if checkOut < checkIn {
      return Failure(CheckOutBeforeCheckIn);
    }
    if extraFree < 0 {
      return Failure(NegativeFreeMinutes);
    }
    var base := AddBase(s, checkIn, checkOut, extraFree);
    BaseLinesSum(s, checkIn, checkOut, extraFree);
    var eligible := LineSum(base);
    var overnightStart := checkIn;
    if s.passUntil.Some? {
      overnightStart := Max(checkIn, s.passUntil.value);
    }
    var nights := day(checkOut) - day(overnightStart);
    var surcharges := AddSurcharges(s, nights, lost, overtime);
    var lines := base + surcharges;
    var discount := eligible * s.discountPercent / 100;
    lines := lines + LineIf(discount != 0, Discount, -discount, 1);
    LinesAddUp(s, day, checkIn, checkOut, lost, overtime, extraFree);
    r := Success(FeeResult(LineSum(lines), lines));
  }

  method AddBase(s: Snapshot, checkIn: int, checkOut: int, extraFree: int)
    returns (lines: seq<FeeLine>)
    requires Valid(s)
    ensures lines == BaseLines(s, checkIn, checkOut, extraFree)
  {
    var billable := Max(0, Minutes(checkIn, checkOut) - s.freeMinutes - extraFree);
    if s.passUntil.Some? && s.kind in {Daily, Monthly} {
      var overageStart := Max(checkIn, s.passUntil.value);
      var overage := Max(0, Minutes(overageStart, checkOut) - s.freeMinutes - extraFree);
      lines := PassOverageLines(s, overage);
    } else if s.kind == Daily {
      var days := if billable != 0 then Max(1, CeilDiv(billable, DAY)) else 0;
      lines := [FeeLine(DayPass, days * s.dayPassFee, days)];
    } else if s.kind == Monthly {
      var months := if billable != 0 then Max(1, CeilDiv(billable, MONTH)) else 0;
      lines := [FeeLine(MonthPass, months * s.monthPassFee, months)];
    } else {
      lines := ParkingDayLines(s, billable);
    }
  }

  method AddSurcharges(s: Snapshot, nights: int, lost: bool, overtime: bool)
    returns (lines: seq<FeeLine>)
    ensures lines == SurchargeLines(s, Max(0, nights), lost, overtime)
  {
    lines := [];
    if nights > 0 && s.overnightFee != 0 {
      lines := lines + [FeeLine(Overnight, nights * s.overnightFee, nights)];
    }
    if lost && s.lostTicketFee != 0 {
      lines := lines + [FeeLine(LostTicket, s.lostTicketFee, 1)];
    }
    if overtime && s.overtimeFee != 0 {
      lines := lines + [FeeLine(Overtime, s.overtimeFee, 1)];
    }
  }

  // ---------------------------------------------------------------------------------------
  // Monotonicity
  // ---------------------------------------------------------------------------------------

  /** The same price rule, with a pass that ends no earlier. */
  predicate LaterPass(later: Snapshot, earlier: Snapshot) {
    && earlier == later.(passUntil := earlier.passUntil)
    && (later.passUntil.Some? <==> earlier.passUntil.Some?)
    && (later.passUntil.Some? ==> earlier.passUntil.value <= later.passUntil.value)
  }

  lemma ChargedMinutesMono(s: Snapshot, s': Snapshot, checkIn: int, checkIn': int,
                           checkOut: int, checkOut': int, extra: int, extra': int)
    requires LaterPass(s, s') && checkIn' <= checkIn && checkOut <= checkOut' && extra' <= extra
    ensures ChargedMinutes(s, checkIn, checkOut, extra)
         <= ChargedMinutes(s', checkIn', checkOut', extra')
  {
    var from := if HasPass(s) then Max(checkIn, s.passUntil.value) else checkIn;
    var from' := if HasPass(s') then Max(checkIn', s'.passUntil.value) else checkIn';
    CeilDivMono(checkOut - from, checkOut' - from', TICKS_PER_MINUTE);
  }

  lemma BaseChargeMono(s: Snapshot, s': Snapshot, checkIn: int, checkIn': int,
                       checkOut: int, checkOut': int, extra: int, extra': int)
    requires Valid(s) && LaterPass(s, s')
    requires checkIn' <= checkIn && checkOut <= checkOut' && extra' <= extra
    ensures 0 <= BaseCharge(s, checkIn, checkOut, extra)
              <= BaseCharge(s', checkIn', checkOut', extra')
  {
    var n := ChargedMinutes(s, checkIn, checkOut, extra);
    var n' := ChargedMinutes(s', checkIn', checkOut', extra');
    ChargedMinutesMono(s, s', checkIn, checkIn', checkOut, checkOut', extra, extra');
    StayChargeMono(s, n, n');
    CeilDivMono(n, n', DAY);
    CeilDivMono(n, n', MONTH);
    MulMono(CeilDiv(n, DAY), CeilDiv(n', DAY), s.dayPassFee);
    MulMono(0, CeilDiv(n, DAY), s.dayPassFee);
    MulMono(CeilDiv(n, MONTH), CeilDiv(n', MONTH), s.monthPassFee);
    MulMono(0, CeilDiv(n, MONTH), s.monthPassFee);
  }

  /** A fee never falls when the stay starts earlier, ends later, has fewer free minutes, or the
      pass ends earlier, for every ticket kind. */
  lemma FeeIsMonotone(s: Snapshot, s': Snapshot, day: DayOf, checkIn: int, checkIn': int,
                      checkOut: int, checkOut': int, lost: bool, overtime: bool,
                      extra: int, extra': int)
    requires Valid(s) && LaterPass(s, s') && MonotoneDays(day)
    requires checkIn' <= checkIn && checkOut <= checkOut' && extra' <= extra
    ensures 0 <= Total(s, day, checkIn, checkOut, lost, overtime, extra)
              <= Total(s', day, checkIn', checkOut', lost, overtime, extra')
  {
    BaseChargeMono(s, s', checkIn, checkIn', checkOut, checkOut', extra, extra');
    NetMono(BaseCharge(s, checkIn, checkOut, extra), BaseCharge(s', checkIn', checkOut', extra'),
            s.discountPercent);
    MulMono(Nights(s, day, checkIn, checkOut), Nights(s', day, checkIn', checkOut'), s.overnightFee);
    MulMono(0, Nights(s, day, checkIn, checkOut), s.overnightFee);
  }
}
