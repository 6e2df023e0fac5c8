/** Runs of the parking services in time, with every check-out charged the gate fee of its instant
    (process_checkout, calculate_parking_fee and record_payment in
    backend/app/modules/checkout/service.py). */
module GateRuns {
  import opened Common
  import opened LotModel
  import LotRuns
  import ParkingDatabase
  import ParkingFee
  import Plates

  /** The visit of the session in each row: what check-in stored and the pass of the vehicle. Whether
      the ticket is lost is said at check-out. */
  type Visits = nat -> ParkingFee.Visit

  ghost predicate VisitsValid(visits: Visits) { forall row :: ParkingFee.WellFormed(visits(row)) }

  function VisitFor(visits: Visits, row: nat, lost: bool): ParkingFee.Visit { visits(row).(lostTicket := lost) }

  /** A step at an instant; the fee given with a check-out is not used. */
  datatype Timed = Timed(at: int, step: Step)

  /** The fee that a check-out computes: that of the session it finds. */
  function FeeAt(site: Site, visits: Visits, lot: Lot, req: CheckoutRequest, at: int): nat
    requires VisitsValid(visits)
  {
    var found := FindSession(site, lot, req);
    if found.Failure? then 0
    else
      var v := VisitFor(visits, found.value, req.lostTicket);
      assert ParkingFee.WellFormed(visits(found.value));
      ParkingFee.FeeIsNonNegative(v, at);
      ParkingFee.Fee(v, at)
  }

  function Priced(site: Site, visits: Visits, lot: Lot, t: Timed): Step
    requires VisitsValid(visits)
  {
    if t.step.Checkout? then Checkout(t.step.checkout, FeeAt(site, visits, lot, t.step.checkout, t.at)) else t.step
  }

  function GateRun(site: Site, visits: Visits, timed: seq<Timed>): Lot
    requires VisitsValid(visits)
  {
    if timed == [] then EMPTY_LOT
    else
      var before := GateRun(site, visits, timed[..|timed| - 1]);
      Next(site, before, Priced(site, visits, before, timed[|timed| - 1]))
  }

  /** A run in time is a run, so whatever every run keeps it keeps. */
  lemma {:induction false} GateRunIsRun(site: Site, visits: Visits, timed: seq<Timed>) returns (steps: seq<Step>)
    requires VisitsValid(visits)
    ensures |steps| == |timed| && GateRun(site, visits, timed) == Run(site, EMPTY_LOT, steps)
  {
    hide Next, Priced;
    steps := [];
    if timed != [] {
      var n := |timed| - 1;
      var before := GateRun(site, visits, timed[..n]);
      var earlier := GateRunIsRun(site, visits, timed[..n]);
      steps := earlier + [Priced(site, visits, before, timed[n])];
      assert steps[..n] == earlier;
    }
  }

  /** Check-out at an instant that is not before the check-in of any session. */
  method CheckOutAt(db: ParkingDatabase.Database, site: Site, visits: Visits, req: CheckoutRequest, at: int)
    returns (reply: Reply)
    requires VisitsValid(visits)
    requires forall row: nat :: row < |db.sessions| ==> visits(row).checkIn <= at
    modifies db
    ensures var lot := old(db.View());
            var step := Priced(site, visits, lot, Timed(at, Checkout(req, 0)));
            reply == Decide(site, lot, step).reply && db.View() == Next(site, lot, step)
  {
    hide FindSession, ParkingFee.Fee;
    var fee := 0;
    var found := FindSession(site, db.View(), req);
    if found.Success? {
      var v := VisitFor(visits, found.value, req.lostTicket);
      assert ParkingFee.WellFormed(visits(found.value));
      var r := ParkingFee.CalculateParkingFee(v, at);
      ParkingFee.FeeIsNonNegative(v, at);
      fee := r.value;
    }
    reply := db.ProcessCheckout(site, req, fee);
  }

  // ---------------------------------------------------------------------------------------
  // What is charged over a run
  // ---------------------------------------------------------------------------------------

  ghost predicate ClockForward(timed: seq<Timed>) {
    forall i, j :: 0 <= i < j < |timed| ==> timed[i].at <= timed[j].at
  }

  /** Each session is stamped with the instant of the check-in that made it. */
  ghost predicate Stamped(site: Site, visits: Visits, timed: seq<Timed>)
    requires VisitsValid(visits)
  {
    timed != [] ==>
      var n := |timed| - 1;
      var before := GateRun(site, visits, timed[..n]);
      && Stamped(site, visits, timed[..n])
      && (Decide(site, before, Priced(site, visits, before, timed[n])).effect.Admit? ==>
            visits(|before.sessions|).checkIn == timed[n].at)
  }

  /** At step `k` a check-out found the session, computed the fee and held or closed the session at it. */
  ghost predicate Charged(site: Site, visits: Visits, timed: seq<Timed>, k: nat, row: nat, fee: int)
    requires VisitsValid(visits)
  {
    && k < |timed| && timed[k].step.Checkout?
    && var before := GateRun(site, visits, timed[..k]);
    && FindSession(site, before, timed[k].step.checkout) == Success(row)
    && (var e := Decide(site, before, Priced(site, visits, before, timed[k])).effect;
        (e.Hold? || e.Close?) && e.row == row && e.fee == fee)
    && visits(row).checkIn <= timed[k].at
    && ParkingFee.WellFormed(VisitFor(visits, row, timed[k].step.checkout.lostTicket))
    && fee == ParkingFee.Fee(VisitFor(visits, row, timed[k].step.checkout.lostTicket), timed[k].at)
  }

  /** At step `k` an emergency exit let the session go. */
  ghost predicate Evacuated(site: Site, visits: Visits, timed: seq<Timed>, k: nat, row: nat)
    requires VisitsValid(visits)
  {
    && k < |timed| && timed[k].step.EmergencyExit?
    && var e := Decide(site, GateRun(site, visits, timed[..k]), timed[k].step).effect;
       e.Close? && e.row == row
  }

  /** What is stored as the fee of a session was charged to it, or waived in an emergency. */
  ghost predicate FeeExplained(site: Site, visits: Visits, timed: seq<Timed>, row: nat, s: Session)
    requires VisitsValid(visits)
  {
    match s.status
    case Parked => s.fee == 0
    case PaymentPending => exists k: nat :: Charged(site, visits, timed, k, row, s.fee)
    case Completed =>
      || (exists k: nat :: Charged(site, visits, timed, k, row, s.fee))
      || (s.fee == 0 && exists k: nat :: Evacuated(site, visits, timed, k, row))
    case _ => false
  }

  ghost predicate ArrivedBefore(visits: Visits, lot: Lot, at: int) {
    forall row: nat :: row < |lot.sessions| ==> visits(row).checkIn <= at
  }

  lemma ChargedStays(site: Site, visits: Visits, timed: seq<Timed>, k: nat, row: nat, fee: int)
    requires VisitsValid(visits) && timed != []
    requires Charged(site, visits, timed[..|timed| - 1], k, row, fee)
    ensures Charged(site, visits, timed, k, row, fee)
  {
    hide GateRun, FindSession, ParkingFee.Fee;
    assert timed[..|timed| - 1][..k] == timed[..k];
  }

  lemma EvacuatedStays(site: Site, visits: Visits, timed: seq<Timed>, k: nat, row: nat)
    requires VisitsValid(visits) && timed != []
    requires Evacuated(site, visits, timed[..|timed| - 1], k, row)
    ensures Evacuated(site, visits, timed, k, row)
  {
    hide GateRun, Decide;
    assert timed[..|timed| - 1][..k] == timed[..k];
  }

  lemma ExplainedStays(site: Site, visits: Visits, timed: seq<Timed>, row: nat, s: Session)
    requires VisitsValid(visits) && timed != []
    requires FeeExplained(site, visits, timed[..|timed| - 1], row, s)
    ensures FeeExplained(site, visits, timed, row, s)
  {
    hide Charged, Evacuated;
    var before := timed[..|timed| - 1];
    if s.status != Parked {
      if k: nat :| Charged(site, visits, before, k, row, s.fee) {
        ChargedStays(site, visits, timed, k, row, s.fee);
      } else {
        var k: nat :| Evacuated(site, visits, before, k, row);
        EvacuatedStays(site, visits, timed, k, row);
      }
    }
  }

  /** A check-out that takes effect charges the session it finds. */
  lemma CheckoutCharges(site: Site, visits: Visits, timed: seq<Timed>)
    requires VisitsValid(visits) && timed != [] && timed[|timed| - 1].step.Checkout?
    requires LotRuns.SessionsSound(site, GateRun(site, visits, timed[..|timed| - 1]))
    requires ArrivedBefore(visits, GateRun(site, visits, timed[..|timed| - 1]), timed[|timed| - 1].at)
    ensures var n := |timed| - 1;
            var before := GateRun(site, visits, timed[..n]);
            var e := Decide(site, before, Priced(site, visits, before, timed[n])).effect;
            && (e.Unchanged? || e.Hold? || e.Close?)
            && (e.Hold? || e.Close? ==> e.row < |before.sessions| && Charged(site, visits, timed, n, e.row, e.fee))
  {
    hide GateRun, FindSession, ParkingFee.Fee, First, Count, Plates.Upper;
    var n := |timed| - 1;
    var req, before := timed[n].step.checkout, GateRun(site, visits, timed[..n]);
    var found := FindSession(site, before, req);
    if found.Success? {
      assert ParkingFee.WellFormed(visits(found.value));
    }
  }

  function SessionsAfter(lot: Lot, e: Effect): seq<Session> {
    match e
    case Admit(s) => lot.sessions + [s]
    case Hold(row, fee, lane, key) =>
      if row >= |lot.sessions| then lot.sessions
      else lot.sessions[row := Held(lot.sessions[row], fee, lane, key)]
    case Close(row, fee, lane, keys) =>
      if row >= |lot.sessions| then lot.sessions
      else lot.sessions[row := Closed(lot.sessions[row], fee, lane, keys)]
    case _ => lot.sessions
  }

  lemma ApplySessions(site: Site, lot: Lot, e: Effect)
    ensures Apply(site, lot, e).sessions == SessionsAfter(lot, e)
  {
    hide Plates.Upper, Occupied;
  }

  /** What the steps other than check-out do to fees. */
  lemma OtherSteps(site: Site, lot: Lot, step: Step)
    requires LotRuns.SessionsSound(site, lot) && !step.Checkout?
    ensures var e := Decide(site, lot, step).effect;
            match e
            case Admit(s) => step.CheckIn? && s.fee == 0 && s.status == Parked
            case Close(row, fee, _, _) =>
              && row < |lot.sessions|
              && ((lot.sessions[row].status == PaymentPending && fee == lot.sessions[row].fee && step.RecordPayment?)
                  || (fee == 0 && step.EmergencyExit?))
            case Hold(_, _, _, _) => false
            case _ => true
  {
    hide First, Plates.Upper, Occupied, LimitAt, PlateOf, ActiveCount, Drifts;
  }

  lemma StepExplained(site: Site, visits: Visits, timed: seq<Timed>)
    requires VisitsValid(visits) && timed != []
    requires var before := GateRun(site, visits, timed[..|timed| - 1]);
             && LotRuns.SessionsSound(site, before)
             && ArrivedBefore(visits, before, timed[|timed| - 1].at)
             && forall row: nat :: row < |before.sessions| ==>
                  FeeExplained(site, visits, timed[..|timed| - 1], row, before.sessions[row])
    ensures var lot := GateRun(site, visits, timed);
            forall row: nat :: row < |lot.sessions| ==> FeeExplained(site, visits, timed, row, lot.sessions[row])
  {
    hide Decide, Charged, ArrivedBefore, LotRuns.SessionsSound, GateRun, Apply, FeeExplained;
    var n := |timed| - 1;
    var before := GateRun(site, visits, timed[..n]);
    var step := Priced(site, visits, before, timed[n]);
    var e := Decide(site, before, step).effect;
    NextOfRun(site, visits, timed);
    ApplySessions(site, before, e);
    forall row: nat | row < |before.sessions|
      ensures FeeExplained(site, visits, timed, row, before.sessions[row])
    {
      ExplainedStays(site, visits, timed, row, before.sessions[row]);
    }
    if step.Checkout? {
      CheckoutCharges(site, visits, timed);
    } else {
      OtherSteps(site, before, step);
    }
    forall row: nat | row < |SessionsAfter(before, e)|
      ensures FeeExplained(site, visits, timed, row, SessionsAfter(before, e)[row])
    {
      RowExplained(site, visits, timed, row);
    }
  }

  lemma NextOfRun(site: Site, visits: Visits, timed: seq<Timed>)
    requires VisitsValid(visits) && timed != []
    ensures var before := GateRun(site, visits, timed[..|timed| - 1]);
            GateRun(site, visits, timed)
            == Apply(site, before, Decide(site, before, Priced(site, visits, before, timed[|timed| - 1])).effect)
  {
    hide Decide, Apply, Priced;
  }

  lemma RowExplained(site: Site, visits: Visits, timed: seq<Timed>, row: nat)
    requires VisitsValid(visits) && timed != []
    requires var before := GateRun(site, visits, timed[..|timed| - 1]);
             var e := Decide(site, before, Priced(site, visits, before, timed[|timed| - 1])).effect;
             && row < |SessionsAfter(before, e)|
             && (row < |before.sessions| ==> FeeExplained(site, visits, timed, row, before.sessions[row]))
             && (match e
                 case Admit(s) => s.fee == 0 && s.status == Parked
                 case Hold(r, fee, _, _) => Charged(site, visits, timed, |timed| - 1, r, fee)
                 case Close(r, fee, _, _) =>
                   && r < |before.sessions|
                   && (|| Charged(site, visits, timed, |timed| - 1, r, fee)
                       || (before.sessions[r].status == PaymentPending && fee == before.sessions[r].fee)
                       || (fee == 0 && Evacuated(site, visits, timed, |timed| - 1, r)))
                 case _ => true)
    ensures var before := GateRun(site, visits, timed[..|timed| - 1]);
            var e := Decide(site, before, Priced(site, visits, before, timed[|timed| - 1])).effect;
            FeeExplained(site, visits, timed, row, SessionsAfter(before, e)[row])
  {
    hide Decide, Charged, Evacuated, GateRun, Priced;
  }

  lemma ArrivalsBefore(visits: Visits, before: Lot, lot: Lot, e: Effect, at: int)
    requires lot.sessions == SessionsAfter(before, e) && ArrivedBefore(visits, before, at)
    requires e.Admit? ==> visits(|before.sessions|).checkIn == at
    ensures ArrivedBefore(visits, lot, at)
  {
    assert |lot.sessions| == |before.sessions| + if e.Admit? then 1 else 0;
  }

  /** On every run in time, what is stored as the fee of a session is the gate fee of a check-out of that
      session, or nothing if an emergency let it go. */
  lemma {:induction false} FeesAreGateFees(site: Site, visits: Visits, timed: seq<Timed>, at: int)
    requires SiteValid(site) && VisitsValid(visits) && ClockForward(timed) && Stamped(site, visits, timed)
    requires timed != [] ==> timed[|timed| - 1].at <= at
    ensures var lot := GateRun(site, visits, timed);
            && ArrivedBefore(visits, lot, at)
            && forall row: nat :: row < |lot.sessions| ==> FeeExplained(site, visits, timed, row, lot.sessions[row])
  {
    hide Decide, Priced, FeeExplained, Apply, SessionsAfter;
    if timed != [] {
      var n := |timed| - 1;
      FeesAreGateFees(site, visits, timed[..n], timed[n].at);
      var steps := GateRunIsRun(site, visits, timed[..n]);
      LotRuns.RunIsSound(site, steps);
      StepExplained(site, visits, timed);
      var before := GateRun(site, visits, timed[..n]);
      var e := Decide(site, before, Priced(site, visits, before, timed[n])).effect;
      NextOfRun(site, visits, timed);
      ApplySessions(site, before, e);
      ArrivalsBefore(visits, before, GateRun(site, visits, timed), e, timed[n].at);
    }
  }

  /** A session that waits was charged by some check-out, and a later retry with the same word on the
      ticket never charges less, unless the pass of the vehicle begins in between. */
  lemma RetryNeverCostsLess(site: Site, visits: Visits, timed: seq<Timed>, at: int, row: nat) returns (k: nat)
    requires SiteValid(site) && VisitsValid(visits) && ClockForward(timed) && Stamped(site, visits, timed)
    requires timed != [] ==> timed[|timed| - 1].at <= at
    requires var lot := GateRun(site, visits, timed);
             row < |lot.sessions| && lot.sessions[row].status == PaymentPending
    ensures Charged(site, visits, timed, k, row, GateRun(site, visits, timed).sessions[row].fee)
    ensures ParkingFee.WellFormed(VisitFor(visits, row, timed[k].step.checkout.lostTicket))
    ensures var v := VisitFor(visits, row, timed[k].step.checkout.lostTicket);
            !(ParkingFee.TimeDecides(v) && timed[k].at < v.pass.value.validFrom <= at) ==>
              GateRun(site, visits, timed).sessions[row].fee <= ParkingFee.Fee(v, at)
  {
    hide GateRun, ParkingFee.Fee, FindSession, Stamped, Charged, ParkingFee.TimeDecides, ParkingFee.WellFormed;
    FeesAreGateFees(site, visits, timed, at);
    var s := GateRun(site, visits, timed).sessions[row];
    k :| Charged(site, visits, timed, k, row, s.fee);
    ChargeNeverFalls(site, visits, timed, at, k, row, s.fee);
  }

  lemma ChargeNeverFalls(site: Site, visits: Visits, timed: seq<Timed>, at: int, k: nat, row: nat, fee: int)
    requires VisitsValid(visits) && ClockForward(timed) && Charged(site, visits, timed, k, row, fee)
    requires timed != [] ==> timed[|timed| - 1].at <= at
    ensures ParkingFee.WellFormed(VisitFor(visits, row, timed[k].step.checkout.lostTicket))
    ensures var v := VisitFor(visits, row, timed[k].step.checkout.lostTicket);
            !(ParkingFee.TimeDecides(v) && timed[k].at < v.pass.value.validFrom <= at) ==>
              fee <= ParkingFee.Fee(v, at)
  {
    hide GateRun, ParkingFee.Fee, FindSession, Decide, Priced;
    var v := VisitFor(visits, row, timed[k].step.checkout.lostTicket);
    if !(ParkingFee.TimeDecides(v) && timed[k].at < v.pass.value.validFrom <= at) {
      ParkingFee.LaterExitCostsMore(v, timed[k].at, at);
    }
  }

  /** The charge of step `k` is no more than the fee at the end of the run, unless the pass of the
      vehicle begins in between. */
  ghost predicate NoMoreThanAtEnd(visits: Visits, timed: seq<Timed>, k: nat, row: nat, fee: int)
    requires VisitsValid(visits)
  {
    k < |timed| && timed[k].step.Checkout? &&
    var v := VisitFor(visits, row, timed[k].step.checkout.lostTicket);
    var at := timed[|timed| - 1].at;
    && ParkingFee.WellFormed(v)
    && (!(ParkingFee.TimeDecides(v) && timed[k].at < v.pass.value.validFrom <= at) ==> fee <= ParkingFee.Fee(v, at))
  }

  /** Everything about a run that its last step needs. */
  lemma BeforeLast(site: Site, visits: Visits, timed: seq<Timed>)
    requires SiteValid(site) && VisitsValid(visits) && timed != []
    requires ClockForward(timed) && Stamped(site, visits, timed)
    ensures var n := |timed| - 1;
            && ClockForward(timed[..n]) && Stamped(site, visits, timed[..n])
            && (n > 0 ==> timed[n - 1].at <= timed[n].at)
            && LotRuns.SessionsSound(site, GateRun(site, visits, timed[..n]))
            && ArrivedBefore(visits, GateRun(site, visits, timed[..n]), timed[n].at)
  {
    hide GateRun;
    var n := |timed| - 1;
    var steps := GateRunIsRun(site, visits, timed[..n]);
    LotRuns.RunIsSound(site, steps);
    FeesAreGateFees(site, visits, timed[..n], timed[n].at);
  }

  lemma HeldCharge(site: Site, visits: Visits, timed: seq<Timed>, row: nat) returns (k: nat)
    requires SiteValid(site) && VisitsValid(visits) && timed != []
    requires ClockForward(timed) && Stamped(site, visits, timed)
    requires var before := GateRun(site, visits, timed[..|timed| - 1]);
             row < |before.sessions| && before.sessions[row].status == PaymentPending
    ensures var fee := GateRun(site, visits, timed[..|timed| - 1]).sessions[row].fee;
            && k < |timed| - 1 && Charged(site, visits, timed, k, row, fee)
            && NoMoreThanAtEnd(visits, timed, k, row, fee)
  {
    hide GateRun, Stamped, ParkingFee.Fee, ParkingFee.WellFormed, FindSession;
    var n := |timed| - 1;
    BeforeLast(site, visits, timed);
    k := RetryNeverCostsLess(site, visits, timed[..n], timed[n].at, row);
    ChargedStays(site, visits, timed, k, row, GateRun(site, visits, timed[..n]).sessions[row].fee);
  }

  /** How a session is completed by the last step of a run: by a check-out at the gate fee of the instant
      it leaves, by a recorded payment at the gate fee of an earlier check-out, which is no more than
      the fee of the instant it leaves unless the pass begins in between, or by an emergency exit for
      nothing. */
  lemma LeavingFee(site: Site, visits: Visits, timed: seq<Timed>, row: nat)
    requires SiteValid(site) && VisitsValid(visits) && timed != []
    requires ClockForward(timed) && Stamped(site, visits, timed)
    requires var before, lot := GateRun(site, visits, timed[..|timed| - 1]), GateRun(site, visits, timed);
             && row < |before.sessions| && row < |lot.sessions|
             && before.sessions[row].status != Completed && lot.sessions[row].status == Completed
    ensures var n := |timed| - 1;
            var fee := GateRun(site, visits, timed).sessions[row].fee;
            match timed[n].step
            case Checkout(req, _) => Charged(site, visits, timed, n, row, fee)
            case RecordPayment(_, r, _) =>
              exists k: nat :: k < n && Charged(site, visits, timed, k, row, fee)
                             && NoMoreThanAtEnd(visits, timed, k, row, fee)
            case EmergencyExit(_) => fee == 0
            case _ => false
  {
    hide GateRun, Stamped, FeeExplained, Decide, Charged, LotRuns.SessionsSound, NoMoreThanAtEnd;
    var n := |timed| - 1;
    var before := GateRun(site, visits, timed[..n]);
    var e := Decide(site, before, Priced(site, visits, before, timed[n])).effect;
    BeforeLast(site, visits, timed);
    NextOfRun(site, visits, timed);
    ApplySessions(site, before, e);
    if timed[n].step.Checkout? {
      CheckoutCharges(site, visits, timed);
    } else {
      OtherSteps(site, before, timed[n].step);
      if timed[n].step.RecordPayment? {
        var k := HeldCharge(site, visits, timed, row);
      }
    }
  }
}
