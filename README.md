# AssemblySim engine, modelled in Dafny

This project models the simulation engine of AssemblySim, an assembly-line
simulator (`src/model/`). The engine has four parts:

- **`Timeline`** (`time.dfy`): the clock and the event queue. It covers
  `SimulationTime` and its saturating and adding arithmetic, and the `Event`
  ordering, which reverses time so that the standard max-heap pops the
  earliest event. The `Simulator` class holds the clock and the queue. The
  queue is a `multiset<Event>`. `Step` removes *some* top of the heap, which
  `HeapTopIsEarliest` proves is an event of earliest time. The order among
  events of equal time is left open, as it is in the source.
- **`Machines`** and **`Staffing`** (`machine.dfy`, `staff.dfy`): machine
  definitions, roles, and the `Staff` class. `Staff` updates its fields in
  place. Each of its methods is proved to produce `Assigned`, `Released` or
  `IdleAccumulated` of the old value `View()`, and the lemmas about those
  functions carry the state machine's laws.
- **`SchedulingSpec`** and **`Scheduling`** (`scheduling_spec.dfy`,
  `scheduling.dfy`): the production simulator.
  - `SchedulingSpec` states, as functions on values, what
    `try_start_process` (`TryStart`) and `finalize_idle_time`
    (`FinalizedStaff`, `FinalizedMachines`) compute, and proves their
    properties.
  - The `ProductionSimulator` class keeps a `Simulator`, a sequence of
    machine records and a sequence of `Staff` objects. Its loops (the staff
    scan, the assignment loop, the two reconciliation loops and the
    id lookup) are proved to produce exactly those functions' results.
  - `Scenarios` (`scenarios.dfy`) replays the engine's unit tests on the
    specification functions.
- **`Batch`** (`batch.dfy`): `MachineSimulator`, a client of the timeline.
  It schedules back-to-back items and proves end-to-end that running a
  batch of `n` items of `p` minutes delivers every event in ascending time
  order: `0, p, p, 2p, …, n·p`. The final clock is `n·p`.

Integers: clock values, ids and counts are the subset type `u32`. The clock
sums (`now + duration`, `add_minutes`, the batch's running start time) carry
a precondition that they fit. Rust panics on such an overflow in a debug
build and wraps around in a release build; the model captures neither. The
idle-time ledgers (`idle_time +=`) are unbounded `nat`s with no precondition,
so their overflow is not modelled either. Names are `string`s that no outcome
depends on.

Rows below whose third column begins "proof step" are lemmas that unfold a
definition one loop round at a time, or generic sequence facts, that the
proofs of the other rows rely on; they model no behaviour of their own.

Behaviour of the code that the model keeps, and that a reader might not
expect:

- **A manual machine that requires 0 staff still takes one available staff
  member.** The scan checks the count only after taking someone
  (`ZeroRequiredTakesOne`).
- **The "desync repair" in `finalize_idle_time` never changes anything.** At
  that point a staff member is still busy only if the committed end time
  lies ahead, and then `release_from_machine` refuses
  (`DesyncRepairNeverFires`).
- **Draining a stopped machine empties its staff list even when those staff
  stay busy** (`FinalizeStaffEffect`, `FinalizeMachinesEffect`).
- `total_time_minutes` is the simulator's `elapsed_time`.
  `MachineSimulator.TotalTimeMinutes` is defined as exactly that, and
  `RunBatch` states its value.

## Model

| member | source | states |
|---|---|---|
| Base.SaturatingSub | src/model/staff.rs:82 | the difference when `a >= b` (so `b + d == a`), otherwise 0; never above `a` |
| Timeline.SimulationTime.AsMinutes | src/model/time.rs:26-28 | the minutes read back rebuild the same time point |
| Timeline.SimulationTime.DurationUntil | src/model/time.rs:32-38 | for a later `other`, adding the result to this time gives `other`; for an earlier `other` it is 0; never above `other` |
| Timeline.SimulationTime.AddMinutes | src/model/time.rs:42-44 | the result is not earlier, and `DurationUntil` measures exactly `m` back to it; the sum must fit a `u32` |
| Timeline.AddThenMeasure | src/model/time.rs:242-247 | round trip: `t.DurationUntil(t.AddMinutes(m)) == m`, and the minutes grow by exactly `m` |
| Timeline.MeasureThenAdd | src/model/time.rs:32-44 | the converse round trip: adding the gap to a later point reaches that point |
| Timeline.EventCmp | src/model/time.rs:131-136 | `Greater` exactly when strictly earlier, `Less` exactly when strictly later, `Equal` exactly when the times agree |
| Timeline.EventOrdConsistent | src/model/time.rs:111-136 | `PartialEq` (same time) agrees with `cmp == Equal`; `cmp` is antisymmetric |
| Timeline.HeapTopIsEarliest | src/model/time.rs:125-136 | an element that no other element exceeds under the reversed order is exactly an element of earliest time |
| Timeline.HeapTopExists | src/model/time.rs:183-191 | every non-empty queue has a top, so `peek` and `pop` succeed on it |
| Timeline.HeapTopsShareTime | src/model/time.rs:183-191 | any two tops have the same time, so `peek` and `pop` agree on the time |
| Timeline.DeliverTop | src/model/time.rs:214-218 | proof step: delivering a top keeps the trace in time order and no later than what remains, conserves the events, and shrinks the queue |
| Timeline.LastIsLatest | src/model/time.rs:214-218 | proof step: the last event of a time-ordered trace is a latest one |
| Timeline.Simulator.HasEvents | src/model/time.rs:177-179 | true exactly when the queue is not empty; `RunAll` ends with it false, and `PeekNextEvent` returns `None` exactly when it is false |
| Timeline.Simulator.ElapsedTime | src/model/time.rs:221-223 | the clock's minutes; `Step` and `RunAll` state where the clock stands, and `RunBatch` reads the total through it |
| Timeline.Simulator.constructor | src/model/time.rs:153-158 | clock at 0, nothing queued |
| Timeline.Simulator.ScheduleEvent | src/model/time.rs:171-174 | exactly one event `(time, eventType)` added, at any time; clock unchanged |
| Timeline.Simulator.PeekNextEvent | src/model/time.rs:183-185 | `None` exactly when empty, otherwise a heap top, which is an earliest event; changes nothing |
| Timeline.Simulator.NextEvent | src/model/time.rs:189-191 | on an empty queue `None` and no change; otherwise removes one copy of a heap top and returns it; clock unchanged |
| Timeline.Simulator.Step | src/model/time.rs:199-207 | on an empty queue `None` and neither clock nor queue changes; otherwise removes a heap top, moves the clock to its time, and that time is at most every remaining event's |
| Timeline.Simulator.RunAll | src/model/time.rs:214-218 | delivers every queued event exactly once (the trace is the old queue as a multiset), in non-decreasing time order; the queue ends empty; the clock ends at the last event's time, which no event exceeds |
| Timeline.EarliestFirstScenario | src/model/time.rs:257-277 | events at 10 and 5: `step` returns the one at 5 and the clock reads 5 |
| Timeline.RunTwoScenario | src/model/time.rs:280-301 | running two events delivers two and leaves nothing pending |
| Timeline.Simulator.SetTime | src/model/time.rs:226-228 | the clock becomes `time`, in either direction; the queue is untouched |
| Machines.MachineType.NeedsStaff | src/model/machine.rs:35-37 | not automated and at least one staff required; `NewMachine` and `Automated` state its value for each kind of machine |
| Machines.NewMachine | src/model/machine.rs:15-22 | id and name copied, `staffRequired == k`, not automated; needs staff exactly when `k > 0` |
| Machines.Automated | src/model/machine.rs:25-32 | id and name copied, no staff required, automated, never needs staff |
| Staffing.Role.CanWorkOn | src/model/staff.rs:31-37 | an empty machine list admits every machine, otherwise exactly the listed ones; stated by `NewRole` and `Specialist` |
| Staffing.NewRole | src/model/staff.rs:13-19 | id and name copied, empty machine list, works on every machine |
| Staffing.Specialist | src/model/staff.rs:22-37 | a non-empty list admits exactly its members; an empty list admits every machine |
| Staffing.SpecialistAcceptsOnlyListed | src/model/staff.rs:124-130 | the specialist for {0, 1} accepts 0 and 1 and refuses 2 |
| Staffing.NewStaffState | src/model/staff.rs:59-70 | available, on no machine, `availableAt`, `idleTime` and `lastStatusChange` all 0 |
| Staffing.Assigned | src/model/staff.rs:79-87 | the value after a successful `assign_to_machine`; its effect is stated by `AssignedEffect` and `EarlyReleaseKeepsAssignment` |
| Staffing.Released | src/model/staff.rs:94-100 | the value after `release_from_machine`, guarded by `availableAt`; stated by `ReleaseGuard` and `ReleaseIdempotent` |
| Staffing.IdleAccumulated | src/model/staff.rs:103-108 | the value after `accumulate_idle_until`; stated by `AccumulateLaws` |
| Staffing.AssignedEffect | src/model/staff.rs:79-87 | the idle ledger grows by the saturating gap since the last change; the member becomes busy on the machine until `now + duration`, with the last change at `now`; id and role kept; occupancy stays consistent |
| Staffing.ReleaseGuard | src/model/staff.rs:94-100 | before `availableAt` a release changes nothing; from then on it frees the member, clears the machine and stamps `now`; never touches the idle ledger |
| Staffing.ReleaseIdempotent | src/model/staff.rs:94-100 | releasing twice at the same time is releasing once |
| Staffing.EarlyReleaseKeepsAssignment | src/model/staff.rs:79-100 | a release before the committed end time leaves an assignment in force |
| Staffing.AccumulateLaws | src/model/staff.rs:103-108 | the ledger never decreases; nothing happens while busy; idempotent at the same time; accumulating to `t1` and then to a later `t2` equals accumulating to `t2` |
| Staffing.OperatorScenario | src/model/staff.rs:143-167 | assign at 0 for 10 (no idle time yet, busy until 10), refused a second machine, freed at 10, idle 10 at 20 |
| Staffing.SpecialistRestriction | src/model/staff.rs:170-182 | a specialist for {0, 1} is taken on machine 0 and, once released at 10, refused machine 2 |
| Staffing.Staff.constructor | src/model/staff.rs:59-70 | the new object's value is `NewStaffState(id, name, role)` |
| Staffing.Staff.CanWorkOn | src/model/staff.rs:73-75 | the member's role decides, as `Role.CanWorkOn`; it is the second half of the guard in `AssignToMachine` |
| Staffing.Staff.AssignToMachine | src/model/staff.rs:79-91 | succeeds exactly when available and allowed on the machine; then the value becomes `Assigned(…)`, otherwise nothing changes |
| Staffing.Staff.ReleaseFromMachine | src/model/staff.rs:94-100 | the value becomes `Released(old value, now)` |
| Staffing.Staff.AccumulateIdleUntil | src/model/staff.rs:103-108 | the value becomes `IdleAccumulated(old value, now)` |
| SchedulingSpec.NewMachineState | src/model/staff_scheduling.rs:25-34 | stopped, no staff listed, not waiting, ledger at 0 |
| SchedulingSpec.Selected | src/model/staff_scheduling.rs:96-106 | what the scan collects: valid indices of available, allowed staff; first-fit and its size are stated by `SelectionIsFirstFit` and `EnoughStaffIff` |
| SchedulingSpec.EligibleIndices | src/model/staff_scheduling.rs:99-100 | exactly the indices of available, allowed staff, in increasing order |
| SchedulingSpec.EligiblePrefix | src/model/staff_scheduling.rs:99-106 | proof step: scanning a prefix of the staff finds a prefix of what the full scan finds |
| SchedulingSpec.SelectionIsFirstFit | src/model/staff_scheduling.rs:96-106 | the scan takes only eligible staff, in increasing order, as many as exist up to its limit, and skips no eligible member before the last one taken |
| SchedulingSpec.EnoughStaffIff | src/model/staff_scheduling.rs:96-119 | enough staff are found exactly when enough eligible staff exist; then exactly `staffRequired` are taken, if it is at least 1 |
| SchedulingSpec.ZeroRequiredTakesOne | src/model/staff_scheduling.rs:100-103 | with `staffRequired == 0` and someone eligible, the scan still takes one |
| SchedulingSpec.AssignEachKeepsIds | src/model/staff_scheduling.rs:126-128 | the assignment loop changes nobody's id |
| SchedulingSpec.AssignRound | src/model/staff_scheduling.rs:126-139 | proof step: one loop round assigns one more member, appends their id and appends their release event |
| SchedulingSpec.AssignEachSelected | src/model/staff_scheduling.rs:126-128 | assigning distinct eligible members in turn assigns each from their own old state and leaves all others unchanged |
| SchedulingSpec.IdsOfSnoc | src/model/staff_scheduling.rs:127-129 | proof step: one more selected index appends that member's id |
| SchedulingSpec.ReleaseEventsSnoc | src/model/staff_scheduling.rs:131-138 | proof step: one more id appends its `StaffReleased` event |
| SchedulingSpec.TryStart | src/model/staff_scheduling.rs:65-151 | the whole outcome of a start request (flag, machines, staff, events); keeps the number of machines and staff, every machine's definition and every staff id. Each path is stated by the `TryStart…` lemmas below |
| SchedulingSpec.TryStartOkIff | src/model/staff_scheduling.rs:65-151 | the request succeeds exactly when the machine index is known and the machine is automated or finds enough eligible staff |
| SchedulingSpec.TryStartUnknownMachine | src/model/staff_scheduling.rs:73-76 | an unknown index fails and changes no machine, staff member or event |
| SchedulingSpec.TryStartAutomated | src/model/staff_scheduling.rs:79-93 | an automated machine always starts: idle gap booked, last change at `now`, operating, not waiting, staff list kept, no staff touched, other machines unchanged, exactly one `ProcessComplete` at `now + duration` |
| SchedulingSpec.TryStartShortage | src/model/staff_scheduling.rs:108-119 | too few eligible staff: fails, marks only the machine's `waitingFor` as staff, touches no staff, schedules exactly one `StaffUnavailable` at `now` |
| SchedulingSpec.TryStartStaffed | src/model/staff_scheduling.rs:121-150 | enough eligible staff for a manual machine: succeeds; the machine books its idle gap, has its last change at `now`, operates, waits for nothing, and has the selected ids appended; no other machine changes; for `k >= 1` exactly `k` staff are selected and `k + 1` events scheduled (for `k == 0` the one grabbed member, if any) |
| SchedulingSpec.TryStartStaffedEvents | src/model/staff_scheduling.rs:129-148 | the events of a staffed start are exactly one `StaffReleased(id, machine)` per selected id and one `ProcessComplete(machine, process)`, all at `now + duration` |
| SchedulingSpec.TryStartStaffedShape | src/model/staff_scheduling.rs:121-150 | proof step: the staffed branch of `TryStart` unfolded to its result |
| SchedulingSpec.ReleaseEventsContent | src/model/staff_scheduling.rs:131-138 | proof step: the release events form a bag of one `StaffReleased` per id, all at the given time |
| SchedulingSpec.TryStartStaffedAssigns | src/model/staff_scheduling.rs:121-139 | with enough staff: exactly the selected (first-fit) members are assigned until `now + duration`, and nobody else changes |
| SchedulingSpec.IndexOfId | src/model/staff_scheduling.rs:225 | the index of the first member with the id, or `None` when no member has it |
| SchedulingSpec.DrainedIff | src/model/staff_scheduling.rs:220-229 | an id is drained exactly when some stopped machine lists it |
| SchedulingSpec.IndexOfIdSameIds | src/model/staff_scheduling.rs:225 | proof step: the lookup depends on the ids alone |
| SchedulingSpec.DrainedStep | src/model/staff_scheduling.rs:220-229 | proof step: one more machine drains exactly the ids it lists, if it is stopped |
| SchedulingSpec.ReleaseIdsRound | src/model/staff_scheduling.rs:224-228 | proof step: one more listed id releases the first member with that id |
| SchedulingSpec.DrainAllRound | src/model/staff_scheduling.rs:220-229 | proof step: one more machine releases its listed ids if it is stopped and lists anyone |
| SchedulingSpec.ReleaseIdsEffect | src/model/staff_scheduling.rs:224-228 | releasing the listed ids one by one releases the first member of each listed id, once, keeps every id and changes nobody else |
| SchedulingSpec.DrainAllIsDrained | src/model/staff_scheduling.rs:220-229 | the machine-by-machine drain equals the closed form `DrainedStaff`, and keeps every id |
| SchedulingSpec.DesyncRepairNeverFires | src/model/staff_scheduling.rs:200-216 | the repair of a busy member whose machine is missing, stopped or no longer lists them has no effect |
| SchedulingSpec.FinalizedStaff | src/model/staff_scheduling.rs:194-229 | the staff after the whole pass (reconciliation, then the drain of stopped machines); keeps the number of staff; stated by `FinalizeStaffEffect`, `FinalizeStaffSettles` and `FinalizeIdempotent` |
| SchedulingSpec.FinalizedMachines | src/model/staff_scheduling.rs:220-235 | the machines after the pass; keeps their number; stated by `FinalizeMachinesEffect` and `FinalizeIdempotent` |
| SchedulingSpec.FinalizeMachinesEffect | src/model/staff_scheduling.rs:220-234 | after the pass a stopped machine lists no staff and its last change is at least `now`; a running machine is untouched; no machine ledger shrinks |
| SchedulingSpec.FinalizeStaffEffect | src/model/staff_scheduling.rs:194-229 | a busy member whose end time has passed is free afterwards; one whose end time lies ahead is left exactly as they were, even if their machine stopped; no staff ledger shrinks; ids kept |
| SchedulingSpec.FinalizeStaffSettles | src/model/staff_scheduling.rs:194-219 | the staff loop leaves each member settled at `now` (busy only until a later time, ledger up to `now` if available), and a later release keeps them settled |
| SchedulingSpec.NothingDrained | src/model/staff_scheduling.rs:221-229 | machines that list no staff when stopped drain nobody |
| SchedulingSpec.FinalizeIdempotent | src/model/staff_scheduling.rs:193-236 | a second pass at the same `now` changes no machine and no staff member, so it books no further idle time |
| Scheduling.ProductionSimulator.constructor | src/model/staff_scheduling.rs:45-51 | a fresh clock at 0 with nothing queued, no machines, no staff |
| Scheduling.ProductionSimulator.AddStaff | src/model/staff_scheduling.rs:54-56 | the member is appended and nothing else changes |
| Scheduling.ProductionSimulator.AddMachine | src/model/staff_scheduling.rs:59-61 | a new stopped machine record is appended; nothing else changes |
| Scheduling.ProductionSimulator.CollectAvailableStaff | src/model/staff_scheduling.rs:95-106 | the scan loop with its early `break` returns exactly `Selected`, the first-fit selection |
| Scheduling.ProductionSimulator.TryStartProcess | src/model/staff_scheduling.rs:65-151 | the result flag, the machines, the staff values and the added events are exactly those of `TryStart`; the clock does not move |
| Scheduling.ProductionSimulator.StartWithStaff | src/model/staff_scheduling.rs:95-151 | the staffed path: the same outcome as `TryStart` for a known manual machine |
| Scheduling.ProductionSimulator.CommitStart | src/model/staff_scheduling.rs:121-150 | the machine becomes `Started` with the selected ids appended; the staff become `AssignEach` of the selection; the release events and one completion are added |
| Scheduling.ProductionSimulator.AssignStaff | src/model/staff_scheduling.rs:126-139 | the loop assigns each selected member in turn, appends their ids to the list, and adds one release event each |
| Scheduling.ProductionSimulator.AssignOne | src/model/staff_scheduling.rs:127-138 | one round: the member is assigned if the guard allows it, their id is appended, and one release event is added |
| Scheduling.ProductionSimulator.FindStaffById | src/model/staff_scheduling.rs:225 | the search loop returns exactly `IndexOfId` |
| Scheduling.ProductionSimulator.ReleaseFirst | src/model/staff_scheduling.rs:225-227 | releases the first member with the id, if any, and nobody else |
| Scheduling.ProductionSimulator.ReleaseListed | src/model/staff_scheduling.rs:224-228 | the staff become `ReleaseIds` of the listed ids |
| Scheduling.ProductionSimulator.ReconcileStaff | src/model/staff_scheduling.rs:194-219 | the staff loop turns the staff values into `ReconciledStaff` |
| Scheduling.ProductionSimulator.DrainStoppedMachines | src/model/staff_scheduling.rs:220-235 | the machine loop turns the staff into `DrainedStaff` and the machines into `FinalizedMachines` |
| Scheduling.ProductionSimulator.DrainMachine | src/model/staff_scheduling.rs:221-234 | one round: machine `i` becomes `FinalizeMachine` of itself, and its listed staff are released if it is stopped |
| Scheduling.ProductionSimulator.FinalizeIdleTime | src/model/staff_scheduling.rs:193-236 | staff and machines become `FinalizedStaff` and `FinalizedMachines` of their old values |
| Scenarios.StaffedRound | src/model/staff_scheduling.rs:259-277 | a one-operator machine and its only, assignable, staff member: the start succeeds with two events and that member assigned |
| Scenarios.AutomatedScenario | src/model/staff_scheduling.rs:244-256 | an automated machine starts and operates with nobody assigned |
| Scenarios.OneOperatorScenario | src/model/staff_scheduling.rs:259-277 | a machine needing one operator takes the only one, who becomes busy |
| Scenarios.ShortageScenario | src/model/staff_scheduling.rs:280-296 | a machine needing two operators with one on the roster does not start, is marked waiting for staff, and the operator is left as they were |
| Scenarios.SpecialistScenario | src/model/staff_scheduling.rs:299-321 | a specialist for machine 0 is taken there and, once released, does not start machine 1 |
| Scenarios.SequentialScenario | src/model/staff_scheduling.rs:324-348 | one operator serves two starts back to back and is busy until 20 after the second |
| Scenarios.FullRunScenario | src/model/staff_scheduling.rs:351-386 | three starts 15 minutes apart all succeed and queue six events |
| Scenarios.FinalizeScenario | src/model/staff_scheduling.rs:410-434 | a machine stopped while its operator is listed: finalizing at 15 frees the operator, empties the list and books 15 idle minutes for the machine; finalizing again at 20 books 5 for the operator |
| Batch.ItemStartIsProduct | src/model/simulation_example.rs:28-53 | the running start time after `i` items is `i * p` |
| Batch.ItemStartMono | src/model/simulation_example.rs:53 | later items start no earlier |
| Batch.BatchQueuedIsBatch | src/model/simulation_example.rs:30-54 | the events queued for `n` items are exactly the batch's event list, `2n` of them |
| Batch.BatchEventAt | src/model/simulation_example.rs:31-50 | item `i` contributes `ProcessStart(machine, i)` at `ItemStart(i)` then `ProcessComplete(machine, i)` `p` minutes later |
| Batch.BatchTimes | src/model/simulation_example.rs:31-53 | event `k` of the batch is at `ItemStart((k + 1) / 2)`; none is later than the last completion, which is at `ItemStart(n)` |
| Batch.BatchInOrder | src/model/simulation_example.rs:30-54 | the batch is queued in time order already |
| Batch.TimesPermutation | src/model/simulation_example.rs:87-92 | proof step: reordering events reorders their times |
| Batch.AscendingUnique | src/model/simulation_example.rs:87-92 | proof step: two ascending sequences with the same elements are equal, so an ordered delivery is unique up to ties |
| Batch.DeliveredBatchTimes | src/model/simulation_example.rs:76-92 | any time-ordered delivery of a batch's events sees exactly the batch's times in scheduled order |
| Batch.ScheduleItem | src/model/simulation_example.rs:31-50 | one round of the batch loop adds the item's start and completion; the next item starts `p` later |
| Batch.MachineSimulator.constructor | src/model/simulation_example.rs:18-23 | the machine id is kept and the simulator is fresh: clock at 0, nothing queued |
| Batch.MachineSimulator.ScheduleBatch | src/model/simulation_example.rs:27-55 | the queue gains exactly the batch's `2n` events (with `BatchQueuedIsBatch`); the clock does not move |
| Batch.RunBatch | src/model/simulation_example.rs:69-96 | on a fresh machine, running a batch delivers all `2n` events, at the batch's times in scheduled order, and the total time is `n * p` |
| Batch.ThreeByTen | src/model/simulation_example.rs:87-92 | the times of three 10-minute items are 0, 10, 10, 20, 20, 30 |
| Batch.ProcessingBatchTimeline | src/model/simulation_example.rs:69-96 | three 10-minute items deliver at 0, 10, 10, 20, 20, 30 and finish at 30 |
| Batch.MultipleMachinesTimeline | src/model/simulation_example.rs:100-124 | 3 × 10 and 2 × 15 both finish at 30 |

## Left out

- `ProductionSimulator::get_status` (src/model/staff_scheduling.rs:154-190) only formats a display string, so it is not modelled.
- `src/logger.rs` and `src/main.rs` are not part of this model: they hold console and file output, wall-clock timestamps and locking.
- `src/model/material.rs`, `src/model/process.rs`, `src/model/production_line.rs` and `src/model/mod.rs` are plain data declarations without behaviour, so they are not part of this model.
- The binary heap's internal layout, and which of several equal-time events it pops, are not modelled. The model promises only "some earliest event", which is all the source's `Ord` guarantees.
- Timeline.Simulator.RunAll: the callback is modelled as an observer. The returned trace records what it sees: each event in delivery order, with the clock at that event's time. A callback that schedules new events or moves the clock is not modelled.
- Timeline.EventEq: Rust's `PartialEq` for events compares times only. The model keeps this as a predicate. Dafny's own `==` on `Event` (used for multiset membership) is structural, so the queue tells apart equal-time events of different kinds, as the heap's storage does.
- Staffing.AssignedEffect: the idle ledgers (`idle_time` of staff and machines) are unbounded `nat`s. The model does not capture the `u32` overflow of `idle_time +=`.
- Staffing.Staff.AssignToMachine: `current_time + duration` must fit a `u32` when the guard passes. The model does not capture Rust's overflow panic; the same holds for `TryStart` and `TryStartProcess`.
- SchedulingSpec.TryStartShortage: the source stores the waiting reason as the string `"Staff"`. The model uses the single value `WaitingForStaff`, since no other reason is ever written.
- Timeline.SimulationTime.AddMinutes: the precondition requires `minutes + m` to fit a `u32`. The model does not capture Rust's overflow panic (debug build) or wrap-around (release build).
- Batch.MachineSimulator.ScheduleBatch: the precondition requires the last completion time, `ItemStart(n, p)`, to fit a `u32`. The model does not capture the overflow panic of `current_time + process_time`.
- Batch.MachineSimulator.TotalTimeMinutes has no contract of its own. It is defined as the simulator's `ElapsedTime`, and `RunBatch` states its value after a batch.
- Names (`&str` arguments) are passed through as `string` values. No outcome depends on them, so the scenarios take them as a parameter.
