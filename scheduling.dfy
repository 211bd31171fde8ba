/**
 * The production simulator of src/model/staff_scheduling.rs: a clock with its
 * event queue, the machines' runtime records and the staff objects, updated
 * in place.  Each state-changing method is proved to follow the function of
 * the same name in SchedulingSpec, where its properties are stated.
 */
module Scheduling {
  import opened Base
  import opened Timeline
  import opened Machines
  import opened Staffing
  import opened SchedulingSpec

  class ProductionSimulator {
    var simulator: Simulator
    var machines: seq<MachineState>
    var staff: seq<Staff>

    /** The simulator owns each staff member once: no object is registered twice. */
    ghost predicate Valid()
      reads this
    {
      forall i, j :: 0 <= i < j < |staff| ==> staff[i] != staff[j]
    }

    /** The staff members' values, in registration order. */
    function StaffViews(): (r: seq<StaffState>)
      reads this, staff
      ensures |r| == |staff|
    {
      seq(|staff|, j reads this, staff requires 0 <= j < |staff| => staff[j].View())
    }

    /** An empty production line with a fresh clock at 0. */
    constructor ()
      ensures fresh(simulator)
      ensures simulator.currentTime == SimulationTime(0) && simulator.eventQueue == multiset{}
      ensures machines == [] && staff == []
      ensures Valid()
    {
      simulator := new Simulator();
      machines := [];
      staff := [];
    }

    /** Registers a staff member, who is now owned by the simulator. */
    method AddStaff(s: Staff)
      requires Valid() && s !in staff
      modifies this
      ensures Valid()
      ensures staff == old(staff) + [s]
      ensures StaffViews() == old(StaffViews()) + [s.View()]
      ensures machines == old(machines) && simulator == old(simulator)
    {
      staff := staff + [s];
    }

    /** Installs a machine, stopped, at the next index. */
    method AddMachine(machine: MachineType)
      modifies this
      ensures machines == old(machines) + [NewMachineState(machine)]
      ensures staff == old(staff) && simulator == old(simulator)
    {
      machines := machines + [NewMachineState(machine)];
    }

    /**
     * The scan of `try_start_process`: the indices of available staff allowed
     * on the machine, in order, stopping once `needed` are held (checked
     * after each find).
     */
    method CollectAvailableStaff(machineId: u32, needed: nat) returns (available: seq<nat>)
      ensures available == Selected(StaffViews(), machineId, needed)
    {
      ghost var views := StaffViews();
      available := [];
      var i := 0;
      while i < |staff|
        invariant 0 <= i <= |staff|
        invariant available == EligibleIndices(views[..i], machineId)
        invariant |available| < ScanLimit(needed)
      {
        assert views[..i + 1][..i] == views[..i];
        assert views[i] == staff[i].View();
        if staff[i].isAvailable && staff[i].CanWorkOn(machineId) {
          available := available + [i];
          if |available| >= needed {
            EligiblePrefix(views, machineId, i + 1);
            return;
          }
        }
        i := i + 1;
      }
      assert views[..i] == views;
    }

    /**
     * Starts process `processId` on machine `machineId` at `currentTime` for
     * `duration` minutes; the result and the new state are `TryStart`'s.
     */
    method TryStartProcess(machineId: u32, processId: u32, duration: u32, currentTime: u32) returns (ok: bool)
      requires Valid()
      requires WouldStart(machines, StaffViews(), machineId) ==> currentTime + duration <= U32_MAX
      modifies this, simulator, staff
      ensures Valid() && staff == old(staff) && simulator == old(simulator)
      ensures simulator.currentTime == old(simulator.currentTime)
      ensures var r := TryStart(old(machines), old(StaffViews()), machineId, processId, duration, currentTime);
        && ok == r.ok
        && machines == r.machines
        && StaffViews() == r.staff
        && simulator.eventQueue == old(simulator.eventQueue) + r.events
    {
      if machineId >= |machines| {
        return false;
      }
      var machine := machines[machineId];

      if machine.machine.isAutomated {
        machine := machine.(idleTime := machine.idleTime + SaturatingSub(currentTime, machine.lastStatusChange),
                            lastStatusChange := currentTime,
                            isOperating := true,
                            waitingFor := None);
        machines := machines[machineId := machine];
        simulator.ScheduleEvent(SimulationTime(currentTime + duration), ProcessComplete(machineId, processId));
        return true;
      }

      ok := StartWithStaff(machineId, processId, duration, currentTime);
    }

    /** The part of `try_start_process` for a known machine that is not automated. */
    method StartWithStaff(machineId: u32, processId: u32, duration: u32, currentTime: u32) returns (ok: bool)
      requires Valid()
      requires machineId < |machines| && !machines[machineId].machine.isAutomated
      requires WouldStart(machines, StaffViews(), machineId) ==> currentTime + duration <= U32_MAX
      modifies this, simulator, staff
      ensures Valid() && staff == old(staff) && simulator == old(simulator)
      ensures simulator.currentTime == old(simulator.currentTime)
      ensures var r := TryStart(old(machines), old(StaffViews()), machineId, processId, duration, currentTime);
        && ok == r.ok
        && machines == r.machines
        && StaffViews() == r.staff
        && simulator.eventQueue == old(simulator.eventQueue) + r.events
    {
      var machine := machines[machineId];
      ghost var m0 := machine;
      ghost var views := StaffViews();
      var staffNeeded := machine.machine.staffRequired;
      var available := CollectAvailableStaff(machineId, staffNeeded);
      assert available == Selected(views, machineId, staffNeeded);

      if |available| < staffNeeded {
        simulator.ScheduleEvent(SimulationTime(currentTime), StaffUnavailable(machineId, processId));
        machines := machines[machineId := machine.(waitingFor := Some(WaitingForStaff))];
        assert StaffViews() == views;
        return false;
      }

      EnoughStaffIff(views, machineId, staffNeeded);
      CommitStart(available, machineId, processId, duration, currentTime);
      ok := true;
    }

    /** The success path of `try_start_process` for a staffed machine, once enough staff were found. */
    method CommitStart(available: seq<nat>, machineId: u32, processId: u32, duration: u32, currentTime: u32)
      requires Valid()
      requires machineId < |machines|
      requires available == Selected(StaffViews(), machineId, machines[machineId].machine.staffRequired)
      requires currentTime + duration <= U32_MAX
      modifies this, simulator, staff
      ensures Valid() && staff == old(staff) && simulator == old(simulator)
      ensures simulator.currentTime == old(simulator.currentTime)
      ensures var m0 := old(machines)[machineId];
        var ids := IdsOf(old(StaffViews()), available);
        var end := SimulationTime(currentTime + duration);
        && machines == old(machines)[machineId := Started(m0, currentTime).(assignedStaff := m0.assignedStaff + ids)]
        && StaffViews() == AssignEach(old(StaffViews()), available, machineId, duration, currentTime)
        && simulator.eventQueue == old(simulator.eventQueue) +
             (multiset(ReleaseEvents(ids, machineId, end)) + multiset{Event(end, ProcessComplete(machineId, processId))})
    {
      ghost var views := StaffViews();
      var machine := machines[machineId];
      ghost var m0 := machine;
      assert forall k :: 0 <= k < |available| ==> available[k] < |staff|;
      machine := machine.(idleTime := machine.idleTime + SaturatingSub(currentTime, machine.lastStatusChange),
                          lastStatusChange := currentTime,
                          isOperating := true,
                          waitingFor := None);
      assert machine == Started(m0, currentTime);
      var end := SimulationTime(currentTime + duration);
      var listed := AssignStaff(available, machine.assignedStaff, machineId, duration, currentTime);
      machine := machine.(assignedStaff := listed);
      machines := machines[machineId := machine];
      simulator.ScheduleEvent(end, ProcessComplete(machineId, processId));
    }

    /**
     * The assignment loop of `try_start_process`: each selected staff member
     * is assigned, appended to the machine's list `listed` and given a
     * release event at the end time.
     */
    method AssignStaff(available: seq<nat>, listed: seq<u32>, machineId: u32, duration: u32, currentTime: u32)
      returns (updated: seq<u32>)
      requires Valid() && currentTime + duration <= U32_MAX
      requires forall k :: 0 <= k < |available| ==> available[k] < |staff|
      modifies staff, simulator
      ensures StaffViews() == AssignEach(old(StaffViews()), available, machineId, duration, currentTime)
      ensures updated == listed + IdsOf(old(StaffViews()), available)
      ensures simulator.eventQueue == old(simulator.eventQueue) +
        multiset(ReleaseEvents(IdsOf(old(StaffViews()), available), machineId, SimulationTime(currentTime + duration)))
      ensures simulator.currentTime == old(simulator.currentTime)
    {
      ghost var views := StaffViews();
      ghost var queue := simulator.eventQueue;
      var end := SimulationTime(currentTime + duration);
      updated := listed;
      ghost var current := views;
      var k := 0;
      while k < |available|
        invariant 0 <= k <= |available|
        invariant simulator.currentTime == old(simulator.currentTime)
        invariant current == AssignEach(views, available[..k], machineId, duration, currentTime)
        invariant Mirrors(current)
        invariant updated == listed + IdsOf(views, available[..k])
        invariant simulator.eventQueue == queue + multiset(ReleaseEvents(IdsOf(views, available[..k]), machineId, end))
      {
        AssignRound(views, available, k, machineId, duration, currentTime);
        updated := AssignOne(available[k], updated, machineId, duration, currentTime, current);
        current := AssignEach(views, available[..k + 1], machineId, duration, currentTime);
        k := k + 1;
      }
      assert available[..k] == available;
    }

    /** One round of the assignment loop, for the staff member at `staffIdx`. */
    method AssignOne(staffIdx: nat, listed: seq<u32>, machineId: u32, duration: u32, currentTime: u32,
                     ghost current: seq<StaffState>)
      returns (updated: seq<u32>)
      requires Valid() && currentTime + duration <= U32_MAX
      requires Mirrors(current) && staffIdx < |staff|
      modifies staff, simulator
      ensures var prev := current[staffIdx];
        var next := if CanAssign(prev, machineId) then Assigned(prev, machineId, duration, currentTime) else prev;
        Mirrors(current[staffIdx := next])
      ensures updated == listed + [current[staffIdx].id]
      ensures simulator.eventQueue == old(simulator.eventQueue) +
        multiset{Event(SimulationTime(currentTime + duration), StaffReleased(current[staffIdx].id, machineId))}
      ensures simulator.currentTime == old(simulator.currentTime)
    {
      var staffId := staff[staffIdx].id;
      var took := staff[staffIdx].AssignToMachine(machineId, duration, currentTime);
      forall j | 0 <= j < |staff| && j != staffIdx
        ensures staff[j].View() == current[j]
      {
        assert staff[j] != staff[staffIdx];
      }
      updated := listed + [staffId];
      simulator.ScheduleEvent(SimulationTime(currentTime + duration), StaffReleased(staffId, machineId));
    }

    /** Each staff object shows the state `current` holds for its position. */
    ghost predicate Mirrors(current: seq<StaffState>)
      reads this, staff
    {
      |current| == |staff| && forall j :: 0 <= j < |staff| ==> staff[j].View() == current[j]
    }

    lemma MirrorsViews(current: seq<StaffState>)
      requires Mirrors(current)
      ensures StaffViews() == current
    {
    }

    /** The index of the first staff member with the given id, as `iter_mut().find` locates it. */
    method FindStaffById(id: u32, ghost current: seq<StaffState>) returns (r: Option<nat>)
      requires Mirrors(current)
      ensures r == IndexOfId(current, id)
    {
      var j := 0;
      while j < |staff|
        invariant 0 <= j <= |staff|
        invariant forall l :: 0 <= l < j ==> current[l].id != id
      {
        if staff[j].id == id {
          assert current[j].id == id;
          return Some(j);
        }
        j := j + 1;
      }
      return None;
    }

    /** Looks up the first staff member with `id` and releases them; nobody else changes. */
    method ReleaseFirst(id: u32, currentTime: u32, ghost current: seq<StaffState>)
      requires Valid() && Mirrors(current)
      modifies staff
      ensures var p := IndexOfId(current, id);
        Mirrors(if p.None? then current else current[p.value := Released(current[p.value], currentTime)])
    {
      var found := FindStaffById(id, current);
      if found.Some? {
        var p := found.value;
        staff[p].ReleaseFromMachine(currentTime);
        forall j | 0 <= j < |staff| && j != p
          ensures staff[j].View() == current[j]
        {
          assert staff[j] != staff[p];
        }
      }
    }

    /** The inner drain loop: each id the stopped machine lists is looked up and released. */
    method ReleaseListed(ids: seq<u32>, currentTime: u32, ghost current: seq<StaffState>)
      requires Valid() && Mirrors(current)
      modifies staff
      ensures Mirrors(ReleaseIds(current, ids, currentTime))
    {
      ghost var cur := current;
      var k := 0;
      while k < |ids|
        invariant 0 <= k <= |ids|
        invariant cur == ReleaseIds(current, ids[..k], currentTime)
        invariant Mirrors(cur)
      {
        ReleaseIdsRound(current, ids, k, currentTime);
        ReleaseFirst(ids[k], currentTime, cur);
        cur := ReleaseIds(current, ids[..k + 1], currentTime);
        k := k + 1;
      }
      assert ids[..k] == ids;
    }

    /** The first loop of `finalize_idle_time`: release, repair, then book idle time, member by member. */
    method ReconcileStaff(currentTime: u32)
      requires Valid()
      modifies staff
      ensures StaffViews() == ReconciledStaff(old(StaffViews()), machines, currentTime)
    {
      ghost var views := StaffViews();
      var j := 0;
      while j < |staff|
        invariant 0 <= j <= |staff|
        invariant forall l :: 0 <= l < |staff| ==>
          staff[l].View() == if l < j then FinalizeStaff(views[l], machines, currentTime) else views[l]
      {
        var member := staff[j];
        if !member.isAvailable && currentTime >= member.availableAt {
          member.ReleaseFromMachine(currentTime);
        }
        if !member.isAvailable {
          if member.currentMachine.Some? {
            var machineId := member.currentMachine.value;
            if machineId < |machines| {
              var stillAssigned := member.id in machines[machineId].assignedStaff;
              if !machines[machineId].isOperating || !stillAssigned {
                member.ReleaseFromMachine(currentTime);
              }
            } else {
              member.ReleaseFromMachine(currentTime);
            }
          }
        }
        member.AccumulateIdleUntil(currentTime);
        j := j + 1;
      }
    }

    /**
     * The second loop of `finalize_idle_time`: every stopped machine hands
     * back the staff it lists and books its idle time up to `currentTime`.
     */
    method DrainStoppedMachines(currentTime: u32)
      requires Valid()
      modifies this, staff
      ensures Valid() && staff == old(staff) && simulator == old(simulator)
      ensures StaffViews() == DrainedStaff(old(StaffViews()), old(machines), currentTime)
      ensures machines == FinalizedMachines(old(machines), currentTime)
    {
      ghost var views := StaffViews();
      ghost var ms := machines;
      ghost var cur := views;
      var i := 0;
      while i < |machines|
        invariant 0 <= i <= |machines| == |ms|
        invariant Valid() && staff == old(staff) && simulator == old(simulator)
        invariant forall l :: 0 <= l < |machines| ==>
          machines[l] == if l < i then FinalizeMachine(ms[l], currentTime) else ms[l]
        invariant cur == DrainAll(views, ms[..i], currentTime)
        invariant Mirrors(cur)
      {
        DrainAllRound(views, ms, i, currentTime);
        DrainMachine(i, currentTime, cur);
        cur := DrainAll(views, ms[..i + 1], currentTime);
        i := i + 1;
      }
      assert ms[..i] == ms;
      DrainAllIsDrained(views, ms, currentTime);
      MirrorsViews(cur);
    }

    /** One round of the machine loop, for the machine at index `i`. */
    method DrainMachine(i: nat, currentTime: u32, ghost current: seq<StaffState>)
      requires Valid() && Mirrors(current) && i < |machines|
      modifies this, staff
      ensures Valid() && staff == old(staff) && simulator == old(simulator)
      ensures machines == old(machines)[i := FinalizeMachine(old(machines)[i], currentTime)]
      ensures var m := old(machines)[i];
        Mirrors(if !m.isOperating && |m.assignedStaff| > 0 then ReleaseIds(current, m.assignedStaff, currentTime) else current)
    {
      var machine := machines[i];
      if !machine.isOperating {
        if |machine.assignedStaff| > 0 {
          ReleaseListed(machine.assignedStaff, currentTime, current);
          machine := machine.(assignedStaff := []);
        }
        if currentTime > machine.lastStatusChange {
          machine := machine.(idleTime := machine.idleTime + (currentTime - machine.lastStatusChange),
                              lastStatusChange := currentTime);
        }
        machines := machines[i := machine];
      } else {
        assert machines[i := machine] == machines;
      }
    }

    /**
     * `finalize_idle_time(currentTime)`: staff and machines become
     * `FinalizedStaff` and `FinalizedMachines` of their old values.
     */
    method FinalizeIdleTime(currentTime: u32)
      requires Valid()
      modifies this, staff
      ensures Valid() && staff == old(staff) && simulator == old(simulator)
      ensures StaffViews() == FinalizedStaff(old(StaffViews()), old(machines), currentTime)
      ensures machines == FinalizedMachines(old(machines), currentTime)
    {
      ReconcileStaff(currentTime);
      DrainStoppedMachines(currentTime);
    }
  }
}
