/** Concurrent check-ins: an unguarded capacity pre-check, then a guarded increment
    (backend/app/modules/checkin/access_control.py, checkin/counter_service.py). */
module CheckInRace {
  import opened Common
  import opened Capacity

  datatype Phase = Waiting | PreChecked | Admitted | TurnedAway

  datatype Thread = Thread(cls: CustomerClass, phase: Phase)

  /** One counter and the check-ins that run against it. */
  datatype Race = Race(occupied: int, threads: seq<Thread>)

  datatype Action = PreCheck(i: nat) | Increment(i: nat) | Leave

  function Act(cfg: Config, r: Race, a: Action): Race {
    match a
    case PreCheck(i) =>
      if i >= |r.threads| || r.threads[i].phase != Waiting then r
      else
        var t := r.threads[i];
        r.(threads := r.threads[i := t.(phase := if r.occupied >= Limit(cfg, t.cls) then TurnedAway else PreChecked)])
    case Increment(i) =>
      if i >= |r.threads| || r.threads[i].phase != PreChecked then r
      else
        var t := r.threads[i];
        if r.occupied < Limit(cfg, t.cls) then
          Race(r.occupied + 1, r.threads[i := t.(phase := Admitted)])
        else r.(threads := r.threads[i := t.(phase := TurnedAway)])
    case Leave => if r.occupied > 0 then r.(occupied := r.occupied - 1) else r
  }

  function Schedule(cfg: Config, r: Race, actions: seq<Action>): Race {
    if actions == [] then r
    else Act(cfg, Schedule(cfg, r, actions[..|actions| - 1]), actions[|actions| - 1])
  }

  /** However check-ins and departures interleave, the lot never exceeds its physical capacity. */
  lemma {:induction false} NeverOverPhysical(cfg: Config, r: Race, actions: seq<Action>)
    requires Ordered(cfg) && r.occupied <= cfg.physical
    ensures Schedule(cfg, r, actions).occupied <= cfg.physical
  {
    if actions != [] {
      NeverOverPhysical(cfg, r, actions[..|actions| - 1]);
    }
  }

  function AdmittedAs(cls: CustomerClass): Thread -> bool {
    (t: Thread) => t.phase == Admitted && t.cls == cls
  }

  function IsAdmitted(): Thread -> bool { (t: Thread) => t.phase == Admitted }

  predicate NobodyLeaves(actions: seq<Action>) { forall i :: 0 <= i < |actions| ==> !actions[i].Leave? }

  lemma {:induction false} ClassAmongAll(threads: seq<Thread>, cls: CustomerClass)
    ensures Count(threads, AdmittedAs(cls)) <= Count(threads, IsAdmitted())
  {
    if threads != [] {
      ClassAmongAll(threads[..|threads| - 1], cls);
    }
  }

  lemma CountsAfter(cfg: Config, r: Race, a: Action, cls: CustomerClass)
    requires !a.Leave?
    ensures var r' := Act(cfg, r, a);
            && r'.occupied - r.occupied == Count(r'.threads, IsAdmitted()) - Count(r.threads, IsAdmitted())
            && (|| Count(r'.threads, AdmittedAs(cls)) == Count(r.threads, AdmittedAs(cls))
                || (&& Count(r'.threads, AdmittedAs(cls)) == Count(r.threads, AdmittedAs(cls)) + 1
                    && r.occupied < Limit(cfg, cls)
                    && r'.occupied == r.occupied + 1))
  {
    hide Count, Limit;
    var r' := Act(cfg, r, a);
    if r' != r {
      CountUpdate(r.threads, IsAdmitted(), a.i, r'.threads[a.i]);
      CountUpdate(r.threads, AdmittedAs(cls), a.i, r'.threads[a.i]);
    }
  }

  /** When nobody leaves, the admissions of a class never exceed its limit less the starting
      occupancy, and all admissions together are the rise in occupancy. */
  lemma {:induction false} AdmissionsWithinLimit(cfg: Config, r: Race, actions: seq<Action>, cls: CustomerClass)
    requires NobodyLeaves(actions) && Count(r.threads, IsAdmitted()) == 0
    ensures var r' := Schedule(cfg, r, actions);
            && Count(r'.threads, IsAdmitted()) == r'.occupied - r.occupied
            && Count(r'.threads, AdmittedAs(cls)) <= Max(0, Limit(cfg, cls) - r.occupied)
  {
    hide Limit, Count;
    ClassAmongAll(r.threads, cls);
    if actions != [] {
      var before := Schedule(cfg, r, actions[..|actions| - 1]);
      AdmissionsWithinLimit(cfg, r, actions[..|actions| - 1], cls);
      ClassAmongAll(before.threads, cls);
      CountsAfter(cfg, before, actions[|actions| - 1], cls);
    }
  }

  /** A pre-check that turns a class away is right for good while nobody leaves. */
  lemma {:induction false} FullStaysFull(cfg: Config, r: Race, actions: seq<Action>, cls: CustomerClass)
    requires NobodyLeaves(actions) && r.occupied >= Limit(cfg, cls)
    ensures var r' := Schedule(cfg, r, actions);
            && r'.occupied >= Limit(cfg, cls)
            && Count(r'.threads, AdmittedAs(cls)) == Count(r.threads, AdmittedAs(cls))
  {
    hide Limit, Count;
    if actions != [] {
      FullStaysFull(cfg, r, actions[..|actions| - 1], cls);
      CountsAfter(cfg, Schedule(cfg, r, actions[..|actions| - 1]), actions[|actions| - 1], cls);
    }
  }

  /** The pre-check alone would not do: with one place left two visitors pass it, and the guard on
      the increment turns the second away. */
  lemma GuardDecidesTheRace(cfg: Config)
    requires Ordered(cfg) && Limit(cfg, Visitor) >= 1
    ensures var start := Race(Limit(cfg, Visitor) - 1, [Thread(Visitor, Waiting), Thread(Visitor, Waiting)]);
            var both := Schedule(cfg, start, [PreCheck(0), PreCheck(1)]);
            var done := Act(cfg, Act(cfg, both, Increment(0)), Increment(1));
            && both.threads == [Thread(Visitor, PreChecked), Thread(Visitor, PreChecked)]
            && done.threads == [Thread(Visitor, Admitted), Thread(Visitor, TurnedAway)]
            && done.occupied == Limit(cfg, Visitor)
  {
    hide Limit;
    var start := Race(Limit(cfg, Visitor) - 1, [Thread(Visitor, Waiting), Thread(Visitor, Waiting)]);
    var actions := [PreCheck(0), PreCheck(1)];
    assert actions[..1] == [PreCheck(0)] && [PreCheck(0)][..0] == [];
    assert Schedule(cfg, start, actions[..1]) == Act(cfg, start, PreCheck(0));
    assert Schedule(cfg, start, actions) == Act(cfg, Act(cfg, start, PreCheck(0)), PreCheck(1));
  }
}
