/**
 * The scenarios the scheduling engine's own unit tests walk through, stated
 * on the specification functions that `ProductionSimulator`'s methods are
 * proved to follow (`TryStart`, `FinalizedStaff`, `FinalizedMachines`).
 * Names are passed in as `tag`, since no outcome depends on them.
 */
module Scenarios {
  import opened Base
  import opened Timeline
  import opened Machines
  import opened Staffing
  import opened SchedulingSpec

  /** One staffed start of a one-operator machine by its only, assignable, staff member. */
  lemma StaffedRound(ms: seq<MachineState>, s: StaffState, processId: u32, now: u32)
    requires |ms| >= 1 && !ms[0].machine.isAutomated && ms[0].machine.staffRequired == 1
    requires CanAssign(s, 0) && now <= 100
    ensures var r := TryStart(ms, [s], 0, processId, 10, now);
      && r.ok && |r.events| == 2 && |r.machines| == |ms| && r.machines[0].machine == ms[0].machine
      && r.staff == [Assigned(s, 0, 10, now)]
  {
    assert EligibleIndices([s], 0) == [0];
    TryStartStaffed(ms, [s], 0, processId, 10, now);
    TryStartStaffedAssigns(ms, [s], 0, processId, 10, now);
  }

  /** An automated machine starts with nobody assigned. */
  lemma AutomatedScenario(tag: string)
    ensures var r := TryStart([NewMachineState(Automated(0, tag))], [], 0, 0, 10, 0);
      r.ok && r.machines[0].isOperating && |r.machines[0].assignedStaff| == 0
  {
    TryStartAutomated([NewMachineState(Automated(0, tag))], [], 0, 0, 10, 0);
  }

  /** A machine needing one operator takes the only one, who becomes busy. */
  lemma OneOperatorScenario(tag: string)
    ensures var r := TryStart([NewMachineState(NewMachine(0, tag, 1))], [NewStaffState(0, tag, NewRole(0, tag))], 0, 0, 10, 0);
      r.ok && r.machines[0].isOperating && |r.machines[0].assignedStaff| == 1 && !r.staff[0].isAvailable
  {
    var ms := [NewMachineState(NewMachine(0, tag, 1))];
    var s0 := NewStaffState(0, tag, NewRole(0, tag));
    assert EligibleIndices([s0], 0) == [0];
    TryStartStaffed(ms, [s0], 0, 0, 10, 0);
    TryStartStaffedAssigns(ms, [s0], 0, 0, 10, 0);
  }

  /** A machine needing two operators with only one on the roster does not start. */
  lemma ShortageScenario(tag: string)
    ensures var r := TryStart([NewMachineState(NewMachine(0, tag, 2))], [NewStaffState(0, tag, NewRole(0, tag))], 0, 0, 10, 0);
      && !r.ok && !r.machines[0].isOperating
      && r.machines[0].waitingFor == Some(WaitingForStaff)
      && r.staff == [NewStaffState(0, tag, NewRole(0, tag))]
  {
    var s0 := NewStaffState(0, tag, NewRole(0, tag));
    assert EligibleIndices([s0], 0) == [0];
    TryStartShortage([NewMachineState(NewMachine(0, tag, 2))], [s0], 0, 0, 10, 0);
  }

  /**
   * A specialist cleared only for machine 0 is taken there, and once
   * released is still refused by machine 1.
   */
  lemma SpecialistScenario(tag: string)
    ensures var ms := [NewMachineState(NewMachine(0, tag, 1)), NewMachineState(NewMachine(1, tag, 1))];
      var s0 := NewStaffState(0, tag, Specialist(0, tag, [0]));
      var r := TryStart(ms, [s0], 0, 0, 10, 0);
      && r.ok
      && !TryStart(r.machines, [Released(r.staff[0], 10)], 1, 0, 10, 10).ok
  {
    var ms := [NewMachineState(NewMachine(0, tag, 1)), NewMachineState(NewMachine(1, tag, 1))];
    var s0 := NewStaffState(0, tag, Specialist(0, tag, [0]));
    StaffedRound(ms, s0, 0, 0);
    var r := TryStart(ms, [s0], 0, 0, 10, 0);
    var s1 := Released(r.staff[0], 10);
    assert EligibleIndices([s1], 1) == [];
    TryStartOkIff(r.machines, [s1], 1, 0, 10, 10);
  }

  /** The same operator serves two processes back to back, busy until 20 after the second start. */
  lemma SequentialScenario(tag: string)
    ensures var ms := [NewMachineState(NewMachine(0, tag, 1))];
      var r1 := TryStart(ms, [NewStaffState(0, tag, NewRole(0, tag))], 0, 0, 10, 0);
      var r2 := TryStart(r1.machines, [Released(r1.staff[0], 10)], 0, 1, 10, 10);
      && r1.ok && !r1.staff[0].isAvailable
      && r2.ok && !r2.staff[0].isAvailable && r2.staff[0].availableAt == 20
  {
    var ms := [NewMachineState(NewMachine(0, tag, 1))];
    var s0 := NewStaffState(0, tag, NewRole(0, tag));
    StaffedRound(ms, s0, 0, 0);
    var r1 := TryStart(ms, [s0], 0, 0, 10, 0);
    StaffedRound(r1.machines, Released(r1.staff[0], 10), 1, 10);
  }

  /**
   * Three items, 15 minutes apart, each taking the one assembler for 10
   * minutes and releasing them before the next: all three start and six
   * events are queued, a release and a completion per item.
   */
  lemma FullRunScenario(tag: string)
    ensures var ms := [NewMachineState(NewMachine(0, tag, 1))];
      var r1 := TryStart(ms, [NewStaffState(0, tag, NewRole(0, tag))], 0, 0, 10, 0);
      var r2 := TryStart(r1.machines, [Released(r1.staff[0], 15)], 0, 1, 10, 15);
      var r3 := TryStart(r2.machines, [Released(r2.staff[0], 30)], 0, 2, 10, 30);
      r1.ok && r2.ok && r3.ok && |r1.events + r2.events + r3.events| == 6
  {
    var ms := [NewMachineState(NewMachine(0, tag, 1))];
    var s0 := NewStaffState(0, tag, NewRole(0, tag));
    StaffedRound(ms, s0, 0, 0);
    var r1 := TryStart(ms, [s0], 0, 0, 10, 0);
    StaffedRound(r1.machines, Released(r1.staff[0], 15), 1, 15);
    var r2 := TryStart(r1.machines, [Released(r1.staff[0], 15)], 0, 1, 10, 15);
    StaffedRound(r2.machines, Released(r2.staff[0], 30), 2, 30);
  }

  /**
   * A machine stopped while its operator is still listed: finalizing at 15
   * frees the operator, empties the machine's list and books 15 idle minutes
   * for the machine; finalizing again at 20 books 5 idle minutes for the
   * operator.
   */
  lemma FinalizeScenario(tag: string)
    ensures var ms := [NewMachineState(NewMachine(0, tag, 1))];
      var r := TryStart(ms, [NewStaffState(0, tag, NewRole(0, tag))], 0, 0, 10, 0);
      var stopped := r.machines[0 := r.machines[0].(isOperating := false)];
      var v1 := FinalizedStaff(r.staff, stopped, 15);
      var ms1 := FinalizedMachines(stopped, 15);
      && r.ok
      && v1[0].isAvailable && v1[0].currentMachine == None
      && ms1[0].assignedStaff == [] && ms1[0].idleTime == 15
      && FinalizedStaff(v1, ms1, 20)[0].idleTime == 5
  {
    var ms := [NewMachineState(NewMachine(0, tag, 1))];
    var s0 := NewStaffState(0, tag, NewRole(0, tag));
    StaffedRound(ms, s0, 0, 0);
    var r := TryStart(ms, [s0], 0, 0, 10, 0);
    var stopped := r.machines[0 := r.machines[0].(isOperating := false)];
    var v1 := FinalizedStaff(r.staff, stopped, 15);
    var ms1 := FinalizedMachines(stopped, 15);
    FinalizeStaffEffect(r.staff, stopped, 15, 0);
    FinalizeMachinesEffect(stopped, 15, 0);
    assert v1[0].lastStatusChange == 15;
    assert FinalizedStaff(v1, ms1, 20)[0].idleTime == v1[0].idleTime + 5;
  }
}
