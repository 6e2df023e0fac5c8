# VisionPark verification model

A Dafny model of the parts of VisionPark whose correctness depends on arithmetic or on whole runs: parking
sessions with their occupancy counters and ledger, the gate fee, invoices and payments, and the small
algorithms for plates, fire alarms, accuracy scores and window checks.

Each file is one module.

| file | what it models |
|---|---|
| `LotModel.dfy` | what check-in, check-out, payment recording, emergency exit, adjustment and reconciliation decide, and the steps and runs made of them |
| `ParkingDatabase.dfy` | the same services as methods that update sessions, counters and ledger step by step, each tied to its decision |
| `LotRuns.dfy`, `LotLimits.dfy` | what every run keeps; class limits, reconciliation, look-ups and repeated requests |
| `LotOutcomes.dfy` | who is let in and out, which row a request names, and where the limits come from, in terms of rows, lanes and stored settings |
| `GateRuns.dfy` | runs in time, in which every check-out is charged the gate fee of its instant |
| `CheckInRace.dfy` | concurrent check-ins, split into the unguarded pre-check and the guarded increment |
| `Capacity.dfy` | capacity settings, limits per customer class, the availability board |
| `Fees.dfy`, `ParkingFee.dfy` | the itemised fee of a stay, and the switch of ticket kind at the gate |
| `FeeLaws.dfy`, `PassLaws.dfy` | what each price field, each part of a stay and a pass add to the fee |
| `Billing.dfy`, `BillingRuns.dfy`, `BillingOutcomes.dfy` | invoices, payments, callbacks and the mismatch report; what every run of them keeps; what each call does to which row |
| `EditDistance.dfy`, `FireHistory.dfy`, `PlateVoter.dfy`, `Plates.dfy`, `Windows.dfy` | the self-contained algorithms |
| `Common.dfy` | options, results, counting and searching rows |

Where the program changes state, a class has the program's fields and methods, and each method is proved against
a function of the old state (`Decide…` and `Apply`, `After…`, `Pushed`, `AfterFrame`). The properties are lemmas
about those functions and about runs of them. A call that raises rolls back, so it is a step that changes nothing.
Every request carries the scope of its account, a building or none, and finds only the rows of that scope
(`backend/app/database/tenant.py:48-122`). Rows marked "helper" in the table unfold a decision for use elsewhere.

## Where the code departs from what one expects

- Checkout, payment and pricing are implemented, although `README.md:15` of the repository says they are not.
- Reconciliation is documented as comparing a counter with the open sessions, but it counts only parked ones
  (`counter_reconciliation.py:32`). A counter it corrects is short by the vehicles that wait for payment
  (`LotLimits.ReconcileLeavesShortfall`).
- It also groups sessions by the vehicle type as stored and then upper-cases the group names, so one
  group can overwrite another (`counter_reconciliation.py:37`). It settles exactly when the spellings are equally
  frequent (`LotLimits.ReconcileSettlesExactly`); the failing case is reachable (`LotLimits.TwoSpellingsNeverSettle`).
- A building that stores a physical capacity of zero for a vehicle type does not close it: the usual capacity of that
  type holds instead (`LotOutcomes.LimitsComeFromSettings`).
- Check-in stores a ticket as given, check-out looks it up in upper case. By ticket, an account of the building finds
  a session exactly when the ticket is stored in upper case (`LotLimits.FoundByTicketExactly`); the failing case is
  reachable (`LotLimits.LowerCaseTicketIsLost`).
- An account without a building finds nothing by plate or ticket, because its missing building is compared with that
  of the session (`LotLimits.FoundByPlateExactly`, `LotLimits.FoundByTicketExactly`).
- `record_payment` does not compare the amount handed in with the fee. It covers the fee exactly when it is at least
  the held fee (`LotLimits.PaymentCoversExactly`); a session let go for less is reachable
  (`LotLimits.UnderpaymentCloses`).
- A failed payment is not final: from empty books a late callback can pay an invoice twice
  (`BillingRuns.FailedPaymentsComeBack`), with the exact condition in `BillingRuns.SoleExactly`.
- An invoice request with an empty invite code makes an invoice that the same request is then refused for
  (`BillingRuns.InvoiceReplay`).
- The gate fee can fall when a pass begins during the stay (`ParkingFee.FeeCanFall`). It never falls exactly when the
  stay up to then is free at the hourly price, a condition on price and times (`ParkingFee.FeeNeverFallsExactly`).
  From the start of the pass on, it never falls.
- The fire detector raises when configured for no frames at all and nothing is in the window
  (`FireHistory.RaisesExactly`).
- A stable vote has a unique winner for odd windows only (`PlateVoter.StableIsUniqueExactly`).

## Model

| member | source | states |
|---|---|---|
| `ParkingDatabase.Database.GetOrCreateCounter` | backend/app/modules/checkin/counter_service.py:18-40 | a counter without a row is created at zero, any other counter and every value stay |
| `ParkingDatabase.Database.IncrementAtomic` | backend/app/modules/checkin/counter_service.py:43-117 | succeeds if and only if the counter is below the limit of the class, then adds one and logs one event; otherwise sessions and ledger stay |
| `ParkingDatabase.Database.DecrementAtomic` | backend/app/modules/checkin/counter_service.py:120-164 | one down, stopped at zero, with one event of minus one either way |
| `ParkingDatabase.Database.ChangeCounter` | backend/app/modules/checkin/counter_service.py:167-213 | a zero delta and a negative result are refused and log nothing, any other change is logged as it is |
| `ParkingDatabase.Database.AdjustCounter` | backend/app/modules/checkin/counter_service.py:167-213 | refines the manual adjustment step of the run model |
| `ParkingDatabase.Database.CompensateOfflineSession` | backend/app/modules/checkin/counter_reconciliation.py:116-154 | is an adjustment by one, and never a session |
| `ParkingDatabase.Database.GetAvailability` | backend/app/modules/checkin/counter_service.py:216-257 | one entry per vehicle type, from its own counter and settings, changing nothing |
| `ParkingDatabase.Database.ProcessCheckIn` | backend/app/modules/checkin/service.py:42-505 | refines the check-in step: same reply, and the whole new state is that of the decision, unchanged on every refusal |
| `ParkingDatabase.Database.SaveAndCount` | backend/app/modules/checkin/service.py:313-500 | a clash with a unique index or a full counter leaves no trace; otherwise one session, one increment and one event appear together |
| `ParkingDatabase.Database.ProcessCheckout` | backend/app/modules/checkout/service.py:276-483 | refines the check-out step: replay by key, hold for payment, or close |
| `ParkingDatabase.Database.CompleteSession` | backend/app/modules/checkout/service.py:485-678 | the session ends completed, never left as exited, and is taken off its own counter once |
| `ParkingDatabase.Database.RecordPaymentFor` | backend/app/modules/checkout/service.py:759-830 | refines the payment step for any amount; without an exit lane the paid mark is undone |
| `ParkingDatabase.Database.OpenEmergencyExit` | backend/app/modules/operations/emergency_service.py:38-163 | refines the emergency step |
| `ParkingDatabase.Database.CheckDiscrepancies` | backend/app/modules/checkin/counter_reconciliation.py:40-61 | reports exactly the differing counters, in order, creating missing rows and changing no value |
| `ParkingDatabase.Database.ReconcileAndAdjust` | backend/app/modules/checkin/counter_reconciliation.py:64-113 | refines the reconciliation step; none of its adjustments is ever refused |
| `ParkingDatabase.DriftIsCurrent` | backend/app/modules/checkin/counter_reconciliation.py:81-95 | each reported drift is still nonzero and current when it is corrected, so no correction raises |
| `ParkingDatabase.AdjustAllReconciles` | backend/app/modules/checkin/counter_reconciliation.py:64-113 | correcting only the reported drifts, one by one, puts all three counters at the active count with one event per drift |
| `LotRuns.DecisionsAreLegal` | backend/app/modules/checkin/service.py:153-500 | every decision of every service admits only below the limit and without a conflict, closes only sessions in the lot, and never adjusts below zero |
| `LotRuns.CountersCountVehicles` | backend/app/modules/checkin/counter_service.py:43-164 | on every run without adjustment and reconciliation each counter equals its vehicles in the lot, and no decrement meets zero |
| `LotRuns.FoldInClosedForm` | backend/app/modules/checkin/counter_service.py:135-164 | replaying deltas with a stop at zero gives their sum less the lowest prefix sum |
| `LotRuns.LedgerExplainsCounters` | backend/app/modules/checkin/counter_service.py:95-213 | on every run of any steps each counter is the replay of its ledger |
| `LotRuns.CounterInClosedForm` | backend/app/modules/checkin/counter_service.py:95-213 | on every run of any steps each counter is the sum of its logged deltas less the lowest prefix sum |
| `LotRuns.EffectIsAccounted` | backend/app/modules/checkin/counter_service.py:99-117 | every step keeps one arrival event per session, and one departure event for exactly the completed ones |
| `LotRuns.RunIsSound` | backend/app/modules/checkin/models.py:74-101 | on every run: ledger replay, event accounting, only parked, waiting and completed sessions, and no two active ones sharing a ticket, or a plate in a building |
| `LotLimits.VisitorsStayWithinLimit` | backend/app/modules/checkin/capacity_quota_stub.py:107-122 | on every ordinary run visitors in the lot never exceed safe capacity less reserved quotas |
| `LotLimits.MembersAlwaysFit` | backend/app/modules/checkin/capacity_quota_stub.py:107-155 | on every ordinary run no resident or staff member is refused for capacity while fewer of them are in than physical capacity less the visitor limit |
| `LotLimits.ActiveCountIsRightExactly` | backend/app/modules/checkin/counter_reconciliation.py:23-37 | in whatever order the groups come, the count read is the parked vehicles if and only if the account sees them and they share one spelling, and never more |
| `LotLimits.ReconcileReachesCount` | backend/app/modules/checkin/counter_reconciliation.py:64-113 | a correcting reconciliation leaves each counter at the count that was read, and sessions untouched |
| `LotLimits.ReconcileLeavesShortfall` | backend/app/modules/checkin/counter_reconciliation.py:32-113 | it leaves a counter short by at least the vehicles waiting for payment, and by exactly those if and only if the parked ones are seen and share one spelling |
| `LotLimits.ReconcileSettlesExactly` | backend/app/modules/checkin/counter_reconciliation.py:23-113 | a second reconciliation finds nothing, for all group orders, if and only if the spellings of each type that the account sees are equally frequent |
| `LotLimits.TwoSpellingsNeverSettle` | backend/app/modules/checkin/counter_reconciliation.py:37 | in a building ready for entry, three check-ins reach a lot in which reconciling in one order leaves a drift in the other |
| `LotLimits.ShortfallNeverGrowsInAStep` | backend/app/modules/checkin/counter_service.py:135-164 | an ordinary step keeps the shortfall non-negative, never increases it, and reduces it exactly when a decrement meets zero |
| `LotLimits.ShortfallNeverGrows` | backend/app/modules/checkin/counter_service.py:61-164 | on every ordinary run the shortfall never grows, and vehicles exceed the larger of capacity and starting occupancy by no more than it |
| `LotLimits.ShortfallAfterReconcile` | backend/app/modules/checkin/counter_reconciliation.py:64-113 | any run, a reconciliation, any ordinary run: short by at most those that waited for payment at the reconciliation |
| `LotLimits.AdmittedExactly` | backend/app/modules/checkin/service.py:50-500 | helper: a vehicle is let in if and only if the listed guards hold, its key being new in the building; the duplicate and early capacity checks add nothing |
| `LotLimits.LeavingMeansSettled` | backend/app/modules/checkout/service.py:382-427 | helper: the steps of any kind by which a vehicle leaves, with the fee stored by each |
| `LotLimits.PaymentCoversExactly` | backend/app/modules/checkout/service.py:759-830 | a recorded payment has the same outcome for every amount, closes the session, and covers its fee if and only if it is at least the held fee |
| `LotLimits.UnderpaymentCloses` | backend/app/modules/checkout/service.py:777-830 | for every fee and every smaller amount, a run of three steps closes a session at that fee on that amount |
| `LotLimits.CompletedIsFrozen` | backend/app/modules/checkout/service.py:749-755 | helper: no step of any kind changes a completed session |
| `LotLimits.CheckoutKeyWorksOnce` | backend/app/modules/checkout/service.py:299-313 | after any later run, a check-out key that closed a session closes nothing more for any account that sees the session, whatever the request |
| `LotLimits.CheckInIsReplayed` | backend/app/modules/checkin/service.py:507-573 | after any later run, the same check-in request returns the row it made and changes nothing |
| `LotLimits.LookUpIsNeverAmbiguous` | backend/app/modules/checkout/service.py:725-745 | on every run, no look-up finds two open sessions |
| `LotLimits.FoundByPlateExactly` | backend/app/modules/checkout/service.py:706-708 | on every run, an open session is found by its stored plate, normalised a second time, if and only if the account is of its building |
| `LotLimits.FoundByTicketExactly` | backend/app/modules/checkout/service.py:702-705 | on every run, an open session is found by its own ticket if and only if the account is of its building and the ticket is stored in upper case |
| `LotLimits.LowerCaseTicketIsLost` | backend/app/modules/checkout/service.py:702-705 | after one check-in with a ticket in lower case, that ticket finds no session |
| `LotOutcomes.LimitsComeFromSettings` | backend/app/modules/checkin/capacity_quota_stub.py:22-122 | residents and staff are limited by the stored physical capacity, visitors by the stored safe capacity less the stored quotas or the usual reserve, and by the usual numbers where nothing or no room is stored |
| `LotOutcomes.StoredSettingsHoldOnRuns` | backend/app/modules/checkin/counter_service.py:61-92 | on every ordinary run visitors never exceed the stored safe capacity less the reserve, and vehicles never exceed the stored physical capacity |
| `LotOutcomes.BoardComesFromSettings` | backend/app/modules/checkin/counter_service.py:230-242 | free places, free visitor places and the status follow the stored capacities, quotas and percentages |
| `LotOutcomes.ArrivalIsRecorded` | backend/app/modules/checkin/service.py:313-500 | an accepted check-in adds one row that says what was asked for, and one vehicle to the counter of the upper-cased type; any other changes nothing |
| `LotOutcomes.ReplayedExactly` | backend/app/modules/checkin/service.py:138-149 | with a key already used in the building, a check-in is answered with that session if and only if every part of the request is the same, and refused otherwise |
| `LotOutcomes.RefusedArrivalsAreTold` | backend/app/modules/checkin/service.py:50-239 | whatever reason a check-in is refused for is true of the lot and the request |
| `LotOutcomes.FoundExactly` | backend/app/modules/checkout/service.py:692-757 | an open session is found if and only if the request names it, within its account, and no other open one |
| `LotOutcomes.CheckoutExactly` | backend/app/modules/checkout/service.py:296-480 | a check-out with a fresh key, one open session, a fitting way out and no stale fee completes the session if and only if nothing is due or it is paid on the spot, and else holds it; any other changes nothing |
| `LotOutcomes.OtherDeparturesAreTold` | backend/app/modules/checkout/service.py:299-388 | whatever else a check-out answers is true: the closed session carries the key and the fee, and each refusal gives a reason that holds |
| `LotOutcomes.PaymentExactly` | backend/app/modules/checkout/service.py:772-830 | a recorded payment completes the waiting session of the account at its held fee and lane, and changes nothing else |
| `LotOutcomes.EvacuatedExactly` | backend/app/modules/operations/emergency_service.py:61-163 | an emergency exit lets out, free of charge, exactly the vehicle in the lot that the request names by row, plate or ticket |
| `LotOutcomes.AdjustedExactly` | backend/app/modules/checkin/counter_service.py:179-213 | an adjustment moves and logs the counter of the upper-cased type by the amount if and only if that is not zero and leaves it non-negative |
| `LotOutcomes.DriftsExactly` | backend/app/modules/checkin/counter_reconciliation.py:40-61 | the report names a vehicle type if and only if its counter differs from the count read, with both numbers |
| `LotOutcomes.ReportChangesNothing` | backend/app/modules/checkin/counter_reconciliation.py:77-79 | a reconciliation without correction reports the drifts and changes nothing |
| `LotOutcomes.LastGroupCounts` | backend/app/modules/checkin/counter_reconciliation.py:36-37 | of the groups that share a type in upper case the last one gives the count |
| `GateRuns.GateRunIsRun` | backend/app/modules/checkout/service.py:276-483 | a run in time is a run of the lot model, so that whatever every run keeps holds of it |
| `GateRuns.CheckOutAt` | backend/app/modules/checkout/service.py:315-427 | computing the gate fee and then checking out refines the priced check-out step |
| `GateRuns.FeesAreGateFees` | backend/app/modules/checkout/service.py:378-433 | on every run in time, the fee stored with a session is the gate fee at the instant of a check-out that held or closed it, nothing for a parked one, or nothing after an emergency |
| `GateRuns.RetryNeverCostsLess` | backend/app/modules/checkout/service.py:378-433 | on every run in time, a held fee is at most the gate fee of any later instant with the same word on the ticket, unless the pass begins in between |
| `GateRuns.LeavingFee` | backend/app/modules/checkout/service.py:485-830 | on every run in time, a vehicle leaves at the gate fee of that instant, at an earlier held gate fee that is no more than it unless the pass begins in between, or free in an emergency |
| `CheckInRace.NeverOverPhysical` | backend/app/modules/checkin/counter_service.py:56-92 | however check-ins and departures interleave, occupancy never exceeds physical capacity |
| `CheckInRace.AdmissionsWithinLimit` | backend/app/modules/checkin/counter_service.py:56-92 | when nobody leaves, a class is admitted at most its limit less the starting occupancy, and admissions are the rise in occupancy |
| `CheckInRace.FullStaysFull` | backend/app/modules/checkin/access_control.py:309-328 | while nobody leaves, a class that is full admits nobody, so an early refusal was right |
| `CheckInRace.GuardDecidesTheRace` | backend/app/modules/checkin/access_control.py:309-328 | two visitors can both pass the pre-check for one place; the increment then admits exactly one |
| `Capacity.SettingsAreOrdered` | backend/app/modules/checkin/capacity_quota_stub.py:47-122 | for every accepted settings value and every default, quotas fit under safe and that under physical capacity, so no limit is clamped |
| `Capacity.BoardAgreesWithGate` | backend/app/modules/checkin/counter_service.py:216-257 | the board shows a visitor place if and only if a visitor would be let in |
| `Fees.CalculateFee` | backend/app/modules/pricing/domain.py:140-233 | refuses exactly a reversed stay or negative free minutes; otherwise total and lines are those of the closed form |
| `Fees.ParkingDayLines` | backend/app/modules/pricing/domain.py:193-204 | the day loop ends and yields one line for each day begun, with the closed-form charge of that day |
| `Fees.PassOverageLines` | backend/app/modules/pricing/domain.py:173-183 | the overage loop yields the same lines under its own code |
| `Fees.DayChargeIsFewestBlocks` | backend/app/modules/pricing/domain.py:195-200 | a day is charged for the least number of blocks that covers it, up to the cap |
| `Fees.StayLinesSum` | backend/app/modules/pricing/domain.py:173-204 | the lines add up to whole days plus a last part-day, and number the days rounded up |
| `Fees.StayChargePeriodic` | backend/app/modules/pricing/domain.py:193-204 | k more days cost k full-day charges more |
| `Fees.StayChargeMono` | backend/app/modules/pricing/domain.py:193-204 | a longer stay never costs less, across day boundaries and the cap |
| `Fees.StayChargeCapped` | backend/app/modules/pricing/domain.py:199-200 | a capped stay costs at most the cap for each day begun |
| `Fees.LinesAddUp` | backend/app/modules/pricing/domain.py:69-85 | lines add up to the total, which is never negative, and only a discount line is, so the validators never fail |
| `Fees.FeeIsMonotone` | backend/app/modules/pricing/domain.py:156-233 | for every ticket kind, through cap, nights and rounded discount, the fee never falls with an earlier start, a later end, fewer free minutes or an earlier pass end |
| `FeeLaws.EveryMidnightIsCharged` | backend/app/modules/pricing/domain.py:206-216 | each local midnight of the stay, or of its part after a pass, costs one overnight fee, undiscounted |
| `FeeLaws.SurchargesAreAdded` | backend/app/modules/pricing/domain.py:217-220 | a lost ticket and overtime add their fees, undiscounted |
| `FeeLaws.DiscountIsRoundedDown` | backend/app/modules/pricing/domain.py:221-228 | the discount is the largest whole amount within the percentage of the charge for time |
| `FeeLaws.ExtraMinutesAreFree` | backend/app/modules/pricing/domain.py:157-172 | extra free minutes count as free minutes of the price |
| `FeeLaws.FreeMinutesComeFirst` | backend/app/modules/pricing/domain.py:156-157 | a stay with free minutes costs what the stay costs that begins when they are over |
| `FeeLaws.PassCoversUntilItsEnd` | backend/app/modules/pricing/domain.py:159-183 | with a pass, the fee is that of an hourly stay from the end of the pass or a later check-in |
| `FeeLaws.HoursIgnoreThePass` | backend/app/modules/pricing/domain.py:159-162 | an hourly or night ticket is charged for time as if there were no pass |
| `FeeLaws.OneDayCosts` | backend/app/modules/pricing/domain.py:193-202 | up to a day, an hourly stay costs the first fee and the fewest blocks that cover its duration, up to the cap |
| `FeeLaws.FurtherDaysCost` | backend/app/modules/pricing/domain.py:193-204 | a stay longer by whole days costs that many full days more |
| `FeeLaws.TicketsCostPeriods` | backend/app/modules/pricing/domain.py:184-191 | a daily or monthly ticket costs the fewest days, or months of thirty days, that cover the stay |
| `FeeLaws.LinesByCode` | backend/app/modules/pricing/domain.py:158-233 | the lines of each code add up to what the whole fee owes to time, nights, lost ticket, overtime and discount |
| `FeeLaws.LinesShowQuantities` | backend/app/modules/pricing/domain.py:181-220 | each line shows its day of the stay, its periods or nights, or one |
| `ParkingFee.CalculateParkingFee` | backend/app/modules/checkout/service.py:139-196 | fails exactly when the exit precedes the check-in; otherwise returns the fee of the visit at that time |
| `ParkingFee.LosingThePassCostsMore` | backend/app/modules/checkout/service.py:159-172 | the same stay is never cheaper as hourly than with the pass |
| `ParkingFee.InPassIsFree` | backend/app/modules/pricing/domain.py:161-183 | within the pass only the lost-ticket surcharge is due |
| `ParkingFee.LaterExitCostsMore` | backend/app/modules/checkout/service.py:139-196 | a later exit never costs less, through pass, grace period and hourly charging, unless the pass begins in between |
| `ParkingFee.PreviewIsALowerBound` | backend/app/modules/checkout/service.py:204-220 | once the pass has begun, a preview never exceeds the fee charged later |
| `ParkingFee.FeeFallsOnlyAtPassStart` | backend/app/modules/checkout/service.py:139-196 | helper: the fee never falls over time if and only if nothing but the surcharge is due just before the pass begins |
| `ParkingFee.HourlyIsFreeExactly` | backend/app/modules/pricing/domain.py:192-228 | hourly, nothing but the surcharge is due if and only if the minutes are free, fully discounted or priced at nothing, and no night is charged |
| `ParkingFee.FeeNeverFallsExactly` | backend/app/modules/checkout/service.py:139-196 | the fee never falls over time if and only if the vehicle came in after its pass began or its price and times make the stay up to then free by the hour |
| `ParkingFee.FeeCanFall` | backend/app/modules/checkout/service.py:159-172 | a visit and two instants, the earlier charged 5000 and the later nothing |
| `PassLaws.AccessByPass` | backend/app/modules/pricing/domain.py:105-137 | a pass for another zone is refused, one that does not identify the vehicle is reviewed, and any other allows access if and only if it holds: within its dates or, monthly, within its days of grace |
| `PassLaws.ReversedPassIsAnError` | backend/app/modules/pricing/domain.py:117-118 | access fails with an error if and only if the pass ends before it starts |
| `PassLaws.PassIsChargedExactly` | backend/app/modules/checkout/service.py:150-196 | an identified pass that holds at the exit leaves only the hours since its end to pay, one that does not hold all hours since check-in; otherwise the stored ticket is charged |
| `PassLaws.GraceIsWorthTenDays` | backend/app/modules/checkout/service.py:159-172 | one stay past the end of a pass costs 120000 with three days of grace and 1320000 without |
| `Billing.BillingDesk.CreateInvoice` | backend/app/modules/pricing/billing.py:105-209 | new tables and reply are those of the invoice decision: an earlier row, a new row with its invite redeemed, or an error and no change |
| `Billing.BillingDesk.CreatePayment` | backend/app/modules/pricing/billing.py:212-294 | new tables and reply are those of the payment decision |
| `Billing.BillingDesk.ApplyCallback` | backend/app/modules/pricing/billing.py:297-360 | new tables and reply are those of the callback decision: replay, refund, settlement or error |
| `Billing.BillingDesk.ReconcilePayments` | backend/app/modules/pricing/billing.py:363-385 | reports exactly the transfers with a reason, in row order |
| `BillingRuns.RunIsSound` | backend/app/modules/pricing/billing.py:105-360 | on every run: amounts equal invoice totals, paid invoices have a paid payment and open ones none, one invoice per transaction, an invite is redeemed if and only if exactly one invoice uses it, totals add up |
| `BillingRuns.ConfirmedIffEverPaid` | backend/app/modules/pricing/billing.py:251-345 | on every run a payment is confirmed if and only if some state so far shows it paid |
| `BillingRuns.StepAndSole` | backend/app/modules/pricing/billing.py:212-360 | a step ends "at most one live payment, and paid if and only if one payment is paid" exactly when it revives a failed payment beside a live one |
| `BillingRuns.SoleExactly` | backend/app/modules/pricing/billing.py:333-344 | a whole run keeps that if and only if no callback in it revives |
| `BillingRuns.FailedPaymentsComeBack` | backend/app/modules/pricing/billing.py:333-344 | for every priced visit and every invoice request, six steps from empty books leave the invoice with two paid payments |
| `BillingRuns.ReportMeaning` | backend/app/modules/pricing/billing.py:363-385 | a status mismatch implies an amount mismatch, that implies a failed payment, and an invoice mismatch implies more than one live payment or a wrong paid mark |
| `BillingRuns.InvoiceMismatchMeansRevival` | backend/app/modules/pricing/billing.py:379-380 | on every run, an invoice mismatch implies that some callback of the run revived a failed payment |
| `BillingRuns.InvoiceMadeExactly` | backend/app/modules/pricing/billing.py:108-173 | helper: the if-and-only-if condition for a new invoice |
| `BillingRuns.InvoiceReplay` | backend/app/modules/pricing/billing.py:120-139 | after any later run, the request returns the row it made and changes nothing, except that one with an empty invite code is refused |
| `BillingRuns.PaymentReplay` | backend/app/modules/pricing/billing.py:227-236 | after any later run, a repeated payment request returns its row and changes nothing |
| `BillingRuns.CallbackReplay` | backend/app/modules/pricing/billing.py:305-309 | hearing a callback twice is hearing it once |
| `BillingOutcomes.InvoiceIsAsRequested` | backend/app/modules/pricing/billing.py:145-209 | a new invoice is open, carries the minutes asked for and those of the usable invite it redeems, and the fee of its transaction with all of them; otherwise nothing changes |
| `BillingOutcomes.InvoicesAreAsRequested` | backend/app/modules/pricing/billing.py:174-198 | on every run every invoice is as some request of the run asked, minutes and fee included |
| `BillingOutcomes.InvoiceReplayedExactly` | backend/app/modules/pricing/billing.py:120-139 | a request for a transaction with an invoice is answered with it if and only if check-out, marks, minutes and code are the same |
| `BillingOutcomes.PaymentMadeExactly` | backend/app/modules/pricing/billing.py:225-279 | the if-and-only-if condition for a new payment, its amount, status and reference, and what it does to the invoice |
| `BillingOutcomes.PaymentReplayedExactly` | backend/app/modules/pricing/billing.py:227-236 | a used key is answered with its payment if and only if the means are the same |
| `BillingOutcomes.HeardExactly` | backend/app/modules/pricing/billing.py:298-337 | a callback is written to the payment with its reference if and only if it is new and the payment is open to it; nothing else changes |
| `BillingOutcomes.StatusFollowsReport` | backend/app/modules/pricing/billing.py:305-344 | on every run the status of every payment is what was last reported of it, or failed for another amount, pending without a report, and paid for cash |
| `BillingOutcomes.InvoiceFollowsPayments` | backend/app/modules/pricing/billing.py:262-344 | an invoice becomes paid if and only if one of its payments does, refunded if and only if a paid one is refunded, and else keeps its status |
| `BillingOutcomes.RefusedInvoicesAreTold` | backend/app/modules/pricing/billing.py:116-173 | whatever reason an invoice is refused for is true |
| `BillingOutcomes.RefusedPaymentsAreTold` | backend/app/modules/pricing/billing.py:225-250 | whatever reason a payment is refused for is true |
| `BillingOutcomes.CallbacksAreTold` | backend/app/modules/pricing/billing.py:301-334 | whatever reason a callback is refused for is true, and the row answered has its reference |
| `BillingOutcomes.ReportIsComplete` | backend/app/modules/pricing/billing.py:363-385 | on every run the report has one entry for each transfer with a mismatch and none for any other payment, in row order, each with exactly the reasons that apply |
| `EditDistance.NextRow` | backend/scripts/benchmark_alpr.py:46-52 | the inner loop turns the distances from one prefix into those from the next |
| `EditDistance.TwoRowDistance` | backend/scripts/benchmark_alpr.py:44-53 | two rows give the recursive distance, for all strings |
| `EditDistance.CharacterAccuracy` | backend/scripts/release_gate.py:54-67 | the score of the normalised strings by that distance |
| `EditDistance.NoScriptIsCheaper` | backend/scripts/benchmark_alpr.py:44-53 | no edit script between two strings costs less than their distance |
| `EditDistance.CheapestScript` | backend/scripts/benchmark_alpr.py:44-53 | some edit script costs exactly the distance |
| `EditDistance.DistanceBounds` | backend/scripts/benchmark_alpr.py:44-53 | between the difference of the lengths and the longer length |
| `EditDistance.DistanceZero` | backend/scripts/benchmark_alpr.py:44-53 | zero if and only if the strings are equal |
| `EditDistance.DistanceSymmetric` | backend/scripts/benchmark_alpr.py:44-53 | the same both ways |
| `EditDistance.TriangleInequality` | backend/scripts/benchmark_alpr.py:44-53 | no detour through a third string is shorter |
| `EditDistance.AccuracyMeaning` | backend/scripts/benchmark_alpr.py:41-54 | in the unit interval, one if and only if equal, zero if and only if at least as many edits as expected characters are wrong |
| `EditDistance.EachEditCostsOnePart` | backend/scripts/benchmark_alpr.py:54 | each edit costs one part in the length of the expected string, until nothing is left |
| `EditDistance.NothingExpected` | backend/scripts/benchmark_alpr.py:44-45 | with nothing expected, only nothing is right |
| `FireHistory.FireSmokeDetector.ProcessKind` | backend/app/alpr/fire_provider.py:293-340 | the history of this camera and kind becomes the appended and pruned one, all others stay, and the verdict is read off it |
| `FireHistory.FireSmokeDetector.ProcessFrame` | backend/app/alpr/fire_provider.py:291-342 | fire, then smoke, for one camera; if fire raises, smoke is not touched |
| `FireHistory.FireSmokeDetector.ResetCamera` | backend/app/alpr/fire_provider.py:206-209 | empties both histories of the camera and no other |
| `FireHistory.BestMatch` | backend/app/alpr/fire_provider.py:295-301 | the detection used is of the right kind and none of that kind is more confident |
| `FireHistory.HistoryIsLongestSuffix` | backend/app/alpr/fire_provider.py:68-307 | after every frame the history is the longest suffix of at most 30 detections of the log within the window |
| `FireHistory.EventsAreBacked` | backend/app/alpr/fire_provider.py:309-340 | an event is backed by at least the demanded number of detections within the window, and more than 30 are never met |
| `FireHistory.RaisesExactly` | backend/app/alpr/fire_provider.py:309-321 | reading an empty history happens if and only if no frames are demanded and no detection is in the window |
| `FireHistory.EventsExactly` | backend/app/alpr/fire_provider.py:309-340 | an event is raised if and only if enough detections are in the window and smoke has lasted or not shrunk, with the latest detection, the number kept and the status by ten of them or a confidence of 0.8 |
| `FireHistory.DetectionMeaning` | backend/app/alpr/fire_provider.py:295-303 | a frame contributes the first of its most confident candidates of the kind, with the area of its box, and nothing if and only if there is none |
| `FireHistory.FireBeforeSmoke` | backend/app/alpr/fire_provider.py:291-342 | a frame reports fire before smoke, and nothing when either raises |
| `FireHistory.CamerasAreIndependent` | backend/app/alpr/fire_provider.py:206-342 | however frames and resets of cameras interleave, a history depends only on the frames of its camera since the last reset, for smoke without those in which fire raised |
| `FireHistory.EveryCameraKeepsItsWindow` | backend/app/alpr/fire_provider.py:206-342 | on every such run the history is the longest suffix of at most 30 detections of those frames within the window |
| `PlateVoter.MultiFrameVoter.Create` | backend/app/alpr/multi_frame_voter.py:41-49 | succeeds exactly for window sizes from 2 to 30, with an empty buffer |
| `PlateVoter.MultiFrameVoter.Push` | backend/app/alpr/multi_frame_voter.py:51-94 | a blank plate is ignored before numbers are checked, a bad number leaves the buffer, a good detection enters and may push the oldest out |
| `PlateVoter.MultiFrameVoter.Reset` | backend/app/alpr/multi_frame_voter.py:125-128 | the buffer is empty and the window size stays |
| `PlateVoter.BufferIsLastEntries` | backend/app/alpr/multi_frame_voter.py:51-94 | the buffer is always the last entries accepted, up to the window size |
| `PlateVoter.VoteMeaning` | backend/app/alpr/multi_frame_voter.py:96-123 | the winner beats every other plate by frequency, then best confidence, then first appearance, and carries its own numbers |
| `PlateVoter.StableExactly` | backend/app/alpr/multi_frame_voter.py:130-143 | stable if and only if some plate is in at least half as many entries as the window can hold |
| `PlateVoter.LeadSurvives` | backend/app/alpr/multi_frame_voter.py:51-123 | a lead of more than 2k frames wins after any k further pushes |
| `PlateVoter.LeadOfTwoCanBeLost` | backend/app/alpr/multi_frame_voter.py:51-123 | a lead of exactly two can be lost in one push |
| `PlateVoter.EvenWindowCanTie` | backend/app/alpr/multi_frame_voter.py:130-143 | every even window has a stable buffer with two leaders |
| `PlateVoter.StableIsUniqueExactly` | backend/app/alpr/multi_frame_voter.py:130-143 | stable implies a unique leader for all buffers if and only if the window is odd |
| `Plates.CorrectVietnamesePlate` | backend/app/alpr/utils.py:137-185 | rewriting in place gives, at each position of any string, the correction that the original characters call for |
| `Plates.CorrectedShape` | backend/app/alpr/utils.py:137-185 | afterwards the series is a letter and no look-alike is left where digits belong |
| `Plates.LookAlikesAreRead` | backend/app/alpr/utils.py:19-46 | where a plate has digits each letter becomes the digit it looks like, in the series each digit the letter it looks like, and all else stays |
| `Plates.ReadThereAndBack` | backend/app/alpr/utils.py:19-46 | a digit read as a letter and back is itself if and only if it is not 1, 3 or 9 |
| `Plates.SecondOfSeries` | backend/app/alpr/utils.py:164-183 | the character after the series is read as a digit if and only if the plate has seven characters, or eight without a series of two letters |
| `Plates.CorrectedPlates` | backend/tests/unit/alpr/test_utils.py:94-128 | plates of each length, with look-alikes in each place, come out as the tests of the repository expect |
| `Plates.CorrectIsIdempotent` | backend/app/alpr/utils.py:137-185 | correcting twice is correcting once, for all strings, lengths and the two-letter series |
| `Plates.NormalizeIsIdempotent` | backend/app/alpr/utils.py:188-199 | a stored plate normalises to itself, for all inputs |
| `Windows.PriceWindowsExactly` | backend/app/modules/pricing/domain.py:56-66 | sorting and comparing neighbours accepts exactly the pairwise disjoint lists |
| `Windows.OperatingHoursExactly` | backend/app/modules/lot_settings/schemas.py:42-49 | the check by weekday accepts exactly the lists without an overlap on any day |

## Left out

- Concurrency other than the check-in race: services are serial steps. Row locks, session synchronisation of the
  object mapper and retries after an integrity error are not modelled; unique indexes are guards of a step.
- A query that may match several rows returns the first row; the program does not fix an order.
- The customer class is kept on a session row only to state the class limits; the program does not store it.
- ProcessCheckout: takes the fee as an input, because a visit is not part of the session row; CheckOutAt computes it.
- The pass of a vehicle does not change during a visit, and the amount of a recorded payment is a whole number.
- Request fingerprints are compared as values, not as hashes; replay under older fingerprints is left out. Source, plate
  reading, confidence, ticket kind, customer class and zone are one opaque part of a request.
- Check-out keys are a set per session. The program keeps them as text in the notes and searches with LIKE, so
  wildcards in a key, or key text inside a reason, are not captured.
- Roles are left out. The blacklist, the pass check at check-in, readiness and the selection of a price version are
  inputs of a check-in (`Outside`). Billing is modelled within one building. Barrier, lifecycle and audit records are
  left out, as is clearing a lane reference when a lane is deleted.
- Money and accuracy are exact; confidences, times and thresholds of the detectors are reals, and the rounding of a
  reported confidence is left out. Instants are whole microseconds, and the local day is any monotone function of
  the instant.
- The fallback snapshot for sessions without a stored price, and the look-up of vehicle, subscription and product
  that leads to a pass, are left out; the pass found is an input of a visit.
- Free minutes of an invite on a pass are modelled but, as in the program, not used at the gate.
- Confidence thresholds, exclusion zones and box clamping before the fire history, and model inference: detections
  are arbitrary.
- White space is stripped as ASCII in keys, and by a given function in plates; upper-casing is any map from characters
  to strings that keeps plate characters.
- Percentiles and station metrics of the benchmark, response mappers, exports, routers and request validators would
  only add easy members.
- ApplyCallback: requires that the invoice of every payment exists, which the foreign key guarantees.
- ReconcilePayments: requires that the invoice of every payment exists, which the foreign key guarantees.
