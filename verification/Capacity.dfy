/** Capacity, quotas and availability (backend/app/modules/checkin/capacity_quota_stub.py). */
module Capacity {
  import opened Common

  datatype CustomerClass = Visitor | Resident | Staff

  datatype Config = Config(physical: int, safe: int, residentQuota: int, staffQuota: int,
                           nearlyFull: real, full: real)

  /** One vehicle type's entry in a building's stored settings. */
  datatype Stored = Stored(safe: Option<int>, physical: Option<int>,
                           residents: int, employees: int, visitors: int,
                           nearlyFullPercent: real, fullPercent: real)

  function DefaultConfig(vehicleType: string): Config {
    if vehicleType == "CAR" then Config(120, 100, 20, 10, 0.8, 0.95)
    else if vehicleType == "MOTORBIKE" then Config(250, 200, 50, 20, 0.8, 0.95)
    else if vehicleType == "BICYCLE" then Config(60, 50, 0, 0, 0.8, 0.95)
    else Config(100, 80, 10, 5, 0.8, 0.95)
  }

  /** The settings in force: the stored entry if it names a positive physical capacity, and the
      default quotas if the entry sets none and they fit under its safe capacity. */
  function SettingsFor(vehicleType: string, entry: Option<Stored>): Config {
    var d := DefaultConfig(vehicleType);
    if entry.None? || entry.value.safe.None? || entry.value.physical.None? || entry.value.physical.value <= 0
    then d
    else
      var e := entry.value;
      var fallBack := e.residents == 0 && e.employees == 0 && e.safe.value > d.residentQuota + d.staffQuota;
      Config(e.physical.value, e.safe.value,
             if fallBack then d.residentQuota else e.residents,
             if fallBack then d.staffQuota else e.employees,
             e.nearlyFullPercent / 100.0, e.fullPercent / 100.0)
  }

  /** The number of vehicles up to which a class is let in. */
  function Limit(cfg: Config, cls: CustomerClass): int {
    if cls != Visitor then cfg.physical
    else Max(0, cfg.safe - Min(cfg.safe, cfg.residentQuota + cfg.staffQuota))
  }

  /** What the settings schema accepts for one vehicle type. */
  predicate SchemaAccepts(e: Stored) {
    && e.safe.Some? && e.physical.Some?
    && 0 <= e.safe.value <= e.physical.value <= 1_000_000
    && 0 <= e.residents && 0 <= e.employees && 0 <= e.visitors
    && e.residents + e.employees + e.visitors <= e.safe.value
  }

  /** The quotas fit under the safe capacity, and that under the physical one. */
  predicate Ordered(cfg: Config) {
    && 0 <= cfg.residentQuota && 0 <= cfg.staffQuota
    && cfg.residentQuota + cfg.staffQuota <= cfg.safe <= cfg.physical
  }

  predicate EntryAccepted(entry: Option<Stored>) { entry.Some? ==> SchemaAccepts(entry.value) }

  /** For every accepted settings value and every fallback, the quotas fit under the safe capacity
      and that under the physical one, so nothing in the limits is ever clamped. */
  lemma SettingsAreOrdered(vehicleType: string, entry: Option<Stored>)
    requires EntryAccepted(entry)
    ensures var cfg := SettingsFor(vehicleType, entry);
            && Ordered(cfg)
            && Limit(cfg, Visitor) == cfg.safe - (cfg.residentQuota + cfg.staffQuota)
            && 0 <= Limit(cfg, Visitor) <= Limit(cfg, Resident) == Limit(cfg, Staff)
  {
  }

  datatype FillStatus = Full | NearlyFull | Available

  datatype Availability = Availability(available: int, availableForVisitor: int, status: FillStatus)

  function AvailabilityOf(cfg: Config, occupied: int): Availability {
    var ratio := (occupied as real) / (Max(1, cfg.safe) as real);
    Availability(
      Max(0, cfg.safe - occupied),
      Max(0, cfg.safe - (cfg.residentQuota + cfg.staffQuota) - occupied),
      if ratio >= cfg.full then Full else if ratio >= cfg.nearlyFull then NearlyFull else Available)
  }

  /** The availability board shows a free visitor place exactly when a visitor would be let in, for
      any settings, also ones whose quotas exceed the safe capacity. */
  lemma BoardAgreesWithGate(cfg: Config, occupied: int)
    requires 0 <= occupied
    ensures AvailabilityOf(cfg, occupied).availableForVisitor > 0 <==> occupied < Limit(cfg, Visitor)
  {
    assert AvailabilityOf(cfg, occupied).availableForVisitor
        == Max(0, cfg.safe - (cfg.residentQuota + cfg.staffQuota) - occupied);
  }
}
