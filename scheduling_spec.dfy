/**
 * What the scheduling engine of src/model/staff_scheduling.rs computes, as
 * functions on values: the runtime machine record, the staff scan of
 * `try_start_process`, the whole outcome of a start request, and the
 * reconciliation pass `finalize_idle_time`.  The class in scheduling.dfy is
 * proved to follow these functions; the lemmas here state what they promise.
 */
module SchedulingSpec {
  import opened Base
  import opened Timeline
  import opened Machines
  import opened Staffing

  /** Why an idle machine is waiting; the source records the label "Staff", and nothing else. */
  datatype WaitReason = WaitingForStaff

  /** A machine at run time: its definition plus its occupancy and idle-time ledger. */
  datatype MachineState = MachineState(
    machine: MachineType,
    isOperating: bool,
    assignedStaff: seq<u32>,
    waitingFor: Option<WaitReason>,
    idleTime: nat,
    lastStatusChange: u32)

  /** A machine just installed: stopped, unstaffed, not waiting, ledger at zero. */
  function NewMachineState(machine: MachineType): (m: MachineState)
    ensures m.machine == machine && !m.isOperating && m.assignedStaff == []
    ensures m.waitingFor == None && m.idleTime == 0 && m.lastStatusChange == 0
  {
    MachineState(machine, false, [], None, 0, 0)
  }

  /** The machine's ledger when it starts at `now`: the idle gap booked, operating, no longer waiting. */
  function Started(m: MachineState, now: u32): MachineState
  {
    m.(idleTime := m.idleTime + SaturatingSub(now, m.lastStatusChange),
       lastStatusChange := now,
       isOperating := true,
       waitingFor := None)
  }

  // ---------------------------------------------------------------------------
  // The staff scan of try_start_process
  // ---------------------------------------------------------------------------

  /**
   * The indices of the staff that are available and allowed on the machine,
   * in registration order: exactly the eligible ones, increasing.
   */
  function EligibleIndices(views: seq<StaffState>, machineId: u32): (r: seq<nat>)
    ensures forall k :: 0 <= k < |r| ==> r[k] < |views| && CanAssign(views[r[k]], machineId)
    ensures forall j :: 0 <= j < |views| && CanAssign(views[j], machineId) ==> j in r
    ensures forall k, l :: 0 <= k < l < |r| ==> r[k] < r[l]
    decreases |views|
  {
    if |views| == 0 then []
    else
      var last := |views| - 1;
      var prefix := EligibleIndices(views[..last], machineId);
      if CanAssign(views[last], machineId) then prefix + [last] else prefix
  }

  /** The scan stops once it holds `needed` staff, but it only checks after taking one. */
  function ScanLimit(needed: nat): nat
  {
    if needed == 0 then 1 else needed
  }

  /** What the scan collects: the first eligible staff, at most `ScanLimit(needed)` of them. */
  function Selected(views: seq<StaffState>, machineId: u32, needed: nat): (sel: seq<nat>)
    ensures forall k :: 0 <= k < |sel| ==> sel[k] < |views| && CanAssign(views[sel[k]], machineId)
  {
    var e := EligibleIndices(views, machineId);
    if |e| <= ScanLimit(needed) then e else e[..ScanLimit(needed)]
  }

  /** Scanning a prefix of the staff finds a prefix of what scanning them all finds. */
  lemma {:induction false} EligiblePrefix(views: seq<StaffState>, machineId: u32, n: nat)
    requires n <= |views|
    ensures var p := EligibleIndices(views[..n], machineId);
      |p| <= |EligibleIndices(views, machineId)| &&
      p == EligibleIndices(views, machineId)[..|p|]
    decreases |views| - n
  {
    if n < |views| {
      var shorter := views[..|views| - 1];
      assert shorter[..n] == views[..n];
      EligiblePrefix(shorter, machineId, n);
    } else {
      assert views[..n] == views;
    }
  }

  /**
   * The scan is first-fit: it takes eligible staff only, in increasing index
   * order, as many as exist up to the limit, and skips no eligible staff
   * member before the last one it takes.
   */
  lemma SelectionIsFirstFit(views: seq<StaffState>, machineId: u32, needed: nat)
    ensures var sel := Selected(views, machineId, needed);
      var e := EligibleIndices(views, machineId);
      && |sel| == (if |e| <= ScanLimit(needed) then |e| else ScanLimit(needed))
      && (forall k :: 0 <= k < |sel| ==> sel[k] < |views| && CanAssign(views[sel[k]], machineId))
      && (forall k, l :: 0 <= k < l < |sel| ==> sel[k] < sel[l])
      && (forall k, j :: 0 <= k < |sel| && 0 <= j < sel[k] && CanAssign(views[j], machineId) ==> j in sel[..k])
  {
    var sel := Selected(views, machineId, needed);
    var e := EligibleIndices(views, machineId);
    forall k, j | 0 <= k < |sel| && 0 <= j < sel[k] && CanAssign(views[j], machineId)
      ensures j in sel[..k]
    {
      assert j in e;
      var p :| 0 <= p < |e| && e[p] == j;
      assert sel[p] == j;
    }
  }

  /** Enough staff were found exactly when enough eligible staff exist; then the scan found exactly that many (or one, for a zero count). */
  lemma EnoughStaffIff(views: seq<StaffState>, machineId: u32, needed: nat)
    ensures |Selected(views, machineId, needed)| >= needed <==> |EligibleIndices(views, machineId)| >= needed
    ensures needed >= 1 && |EligibleIndices(views, machineId)| >= needed ==> |Selected(views, machineId, needed)| == needed
  {
  }

  /** A manual machine that requires no staff still takes the first eligible staff member. */
  lemma ZeroRequiredTakesOne(views: seq<StaffState>, machineId: u32)
    requires |EligibleIndices(views, machineId)| > 0
    ensures |Selected(views, machineId, 0)| == 1
  {
  }

  /** The staff ids at the given indices, in order. */
  function IdsOf(views: seq<StaffState>, sel: seq<nat>): (ids: seq<u32>)
    requires forall k :: 0 <= k < |sel| ==> sel[k] < |views|
    ensures |ids| == |sel|
  {
    seq(|sel|, k requires 0 <= k < |sel| => views[sel[k]].id)
  }

  /** One `StaffReleased` event per id, all at time `t`. */
  function ReleaseEvents(ids: seq<u32>, machineId: u32, t: SimulationTime): (evs: seq<Event>)
    ensures |evs| == |ids|
  {
    seq(|ids|, k requires 0 <= k < |ids| => Event(t, StaffReleased(ids[k], machineId)))
  }

  /**
   * The staff after `assign_to_machine` has been called on each listed index
   * in turn; a call whose guard fails changes nothing.
   */
  function AssignEach(views: seq<StaffState>, sel: seq<nat>, machineId: u32, duration: u32, now: u32): (r: seq<StaffState>)
    requires now + duration <= U32_MAX
    requires forall k :: 0 <= k < |sel| ==> sel[k] < |views|
    ensures |r| == |views|
    decreases |sel|
  {
    if sel == [] then views
    else
      var prev := AssignEach(views, sel[..|sel| - 1], machineId, duration, now);
      var x := sel[|sel| - 1];
      prev[x := if CanAssign(prev[x], machineId) then Assigned(prev[x], machineId, duration, now) else prev[x]]
  }

  /** Assignment never changes anyone's id. */
  lemma {:induction false} AssignEachKeepsIds(views: seq<StaffState>, sel: seq<nat>, machineId: u32, duration: u32, now: u32)
    requires now + duration <= U32_MAX
    requires forall k :: 0 <= k < |sel| ==> sel[k] < |views|
    ensures forall j :: 0 <= j < |views| ==> AssignEach(views, sel, machineId, duration, now)[j].id == views[j].id
    decreases |sel|
  {
    if sel != [] {
      AssignEachKeepsIds(views, sel[..|sel| - 1], machineId, duration, now);
    }
  }

  /**
   * One round of the assignment loop, on values: the staff, the ids listed on
   * the machine and the release events after `k + 1` rounds, from those
   * after `k` rounds.
   */
  lemma AssignRound(views: seq<StaffState>, sel: seq<nat>, k: nat, machineId: u32, duration: u32, now: u32)
    requires now + duration <= U32_MAX
    requires forall i :: 0 <= i < |sel| ==> sel[i] < |views|
    requires k < |sel|
    ensures var cur := AssignEach(views, sel[..k], machineId, duration, now);
      var x := sel[k];
      var end := SimulationTime(now + duration);
      && |cur| == |views|
      && cur[x].id == views[x].id
      && AssignEach(views, sel[..k + 1], machineId, duration, now) ==
           cur[x := if CanAssign(cur[x], machineId) then Assigned(cur[x], machineId, duration, now) else cur[x]]
      && IdsOf(views, sel[..k + 1]) == IdsOf(views, sel[..k]) + [views[x].id]
      && ReleaseEvents(IdsOf(views, sel[..k + 1]), machineId, end) ==
           ReleaseEvents(IdsOf(views, sel[..k]), machineId, end) + [Event(end, StaffReleased(views[x].id, machineId))]
  {
    var x := sel[k];
    assert sel[..k + 1] == sel[..k] + [x];
    assert sel[..k + 1][..k] == sel[..k];
    AssignEachKeepsIds(views, sel[..k], machineId, duration, now);
    var ids := IdsOf(views, sel[..k]);
    assert IdsOf(views, sel[..k + 1]) == ids + [views[x].id];
    ReleaseEventsSnoc(ids, views[x].id, machineId, SimulationTime(now + duration));
  }

  /**
   * Assigning distinct eligible staff one after the other assigns exactly
   * those staff, each from their original state, and leaves everyone else
   * as they were.
   */
  lemma {:induction false} AssignEachSelected(views: seq<StaffState>, sel: seq<nat>, machineId: u32, duration: u32, now: u32)
    requires now + duration <= U32_MAX
    requires forall k :: 0 <= k < |sel| ==> sel[k] < |views| && CanAssign(views[sel[k]], machineId)
    requires forall k, l :: 0 <= k < l < |sel| ==> sel[k] < sel[l]
    ensures forall j :: 0 <= j < |views| ==>
      AssignEach(views, sel, machineId, duration, now)[j] ==
        if j in sel then Assigned(views[j], machineId, duration, now) else views[j]
    decreases |sel|
  {
    if sel != [] {
      var front := sel[..|sel| - 1];
      var x := sel[|sel| - 1];
      AssignEachSelected(views, front, machineId, duration, now);
      assert x !in front;
      assert sel == front + [x];
    }
  }

  /** Listing one more index appends its id. */
  lemma IdsOfSnoc(views: seq<StaffState>, sel: seq<nat>, x: nat)
    requires forall k :: 0 <= k < |sel| ==> sel[k] < |views|
    requires x < |views|
    ensures IdsOf(views, sel + [x]) == IdsOf(views, sel) + [views[x].id]
  {
  }

  /** Releasing one more id appends its event. */
  lemma ReleaseEventsSnoc(ids: seq<u32>, id: u32, machineId: u32, t: SimulationTime)
    ensures ReleaseEvents(ids + [id], machineId, t) == ReleaseEvents(ids, machineId, t) + [Event(t, StaffReleased(id, machineId))]
  {
  }

  // ---------------------------------------------------------------------------
  // The outcome of try_start_process
  // ---------------------------------------------------------------------------

  /** Whether a start request succeeds: a known machine that is automated or finds enough staff. */
  predicate WouldStart(machines: seq<MachineState>, views: seq<StaffState>, machineId: u32)
  {
    && machineId < |machines|
    && (machines[machineId].machine.isAutomated
        || |EligibleIndices(views, machineId)| >= machines[machineId].machine.staffRequired)
  }

  /** The result flag, the new machines and staff, and the events scheduled. */
  datatype StartResult = StartResult(
    ok: bool,
    machines: seq<MachineState>,
    staff: seq<StaffState>,
    events: multiset<Event>)

  /** What `try_start_process(machineId, processId, duration, now)` does. */
  function TryStart(machines: seq<MachineState>, views: seq<StaffState>,
                    machineId: u32, processId: u32, duration: u32, now: u32): (r: StartResult)
    requires WouldStart(machines, views, machineId) ==> now + duration <= U32_MAX
    ensures |r.machines| == |machines| && |r.staff| == |views|
    ensures forall i :: 0 <= i < |machines| ==> r.machines[i].machine == machines[i].machine
    ensures forall j :: 0 <= j < |views| ==> r.staff[j].id == views[j].id
  {
    if machineId >= |machines| then
      StartResult(false, machines, views, multiset{})
    else
      var m := machines[machineId];
      if m.machine.isAutomated then
        StartResult(true, machines[machineId := Started(m, now)], views,
                    multiset{Event(SimulationTime(now + duration), ProcessComplete(machineId, processId))})
      else
        var sel := Selected(views, machineId, m.machine.staffRequired);
        if |sel| < m.machine.staffRequired then
          StartResult(false, machines[machineId := m.(waitingFor := Some(WaitingForStaff))], views,
                      multiset{Event(SimulationTime(now), StaffUnavailable(machineId, processId))})
        else
          EnoughStaffIff(views, machineId, m.machine.staffRequired);
          AssignEachKeepsIds(views, sel, machineId, duration, now);
          var ids := IdsOf(views, sel);
          var end := SimulationTime(now + duration);
          StartResult(true,
                      machines[machineId := Started(m, now).(assignedStaff := m.assignedStaff + ids)],
                      AssignEach(views, sel, machineId, duration, now),
                      multiset(ReleaseEvents(ids, machineId, end)) + multiset{Event(end, ProcessComplete(machineId, processId))})
  }

  /** The request succeeds exactly when the machine is known and automated or staffed. */
  lemma TryStartOkIff(machines: seq<MachineState>, views: seq<StaffState>,
                      machineId: u32, processId: u32, duration: u32, now: u32)
    requires WouldStart(machines, views, machineId) ==> now + duration <= U32_MAX
    ensures TryStart(machines, views, machineId, processId, duration, now).ok <==> WouldStart(machines, views, machineId)
  {
    if machineId < |machines| && !machines[machineId].machine.isAutomated {
      EnoughStaffIff(views, machineId, machines[machineId].machine.staffRequired);
    }
  }

  /** An unknown machine index fails and changes nothing. */
  lemma TryStartUnknownMachine(machines: seq<MachineState>, views: seq<StaffState>,
                               machineId: u32, processId: u32, duration: u32, now: u32)
    requires machineId >= |machines|
    ensures TryStart(machines, views, machineId, processId, duration, now) == StartResult(false, machines, views, multiset{})
  {
  }

  /**
   * An automated machine always starts: its idle gap is booked, it operates
   * and waits for nothing, no staff is touched, and exactly one completion
   * is scheduled at `now + duration`.
   */
  lemma TryStartAutomated(machines: seq<MachineState>, views: seq<StaffState>,
                          machineId: u32, processId: u32, duration: u32, now: u32)
    requires machineId < |machines| && machines[machineId].machine.isAutomated
    requires now + duration <= U32_MAX
    ensures var r := TryStart(machines, views, machineId, processId, duration, now);
      var m := machines[machineId];
      && r.ok && r.staff == views
      && |r.machines| == |machines|
      && (forall i :: 0 <= i < |machines| && i != machineId ==> r.machines[i] == machines[i])
      && r.machines[machineId].idleTime == m.idleTime + SaturatingSub(now, m.lastStatusChange)
      && r.machines[machineId].lastStatusChange == now
      && r.machines[machineId].isOperating && r.machines[machineId].waitingFor == None
      && r.machines[machineId].assignedStaff == m.assignedStaff
      && r.events == multiset{Event(SimulationTime(now + duration), ProcessComplete(machineId, processId))}
  {
  }

  /**
   * Too few available, eligible staff: the request fails, one
   * `StaffUnavailable` is signalled at `now`, the machine is marked waiting
   * for staff and nothing else about it or about any staff member changes.
   */
  lemma TryStartShortage(machines: seq<MachineState>, views: seq<StaffState>,
                         machineId: u32, processId: u32, duration: u32, now: u32)
    requires machineId < |machines| && !machines[machineId].machine.isAutomated
    requires |EligibleIndices(views, machineId)| < machines[machineId].machine.staffRequired
    ensures var r := TryStart(machines, views, machineId, processId, duration, now);
      && !r.ok && r.staff == views
      && r.machines == machines[machineId := machines[machineId].(waitingFor := Some(WaitingForStaff))]
      && r.machines[machineId].isOperating == machines[machineId].isOperating
      && r.machines[machineId].assignedStaff == machines[machineId].assignedStaff
      && r.machines[machineId].idleTime == machines[machineId].idleTime
      && r.events == multiset{Event(SimulationTime(now), StaffUnavailable(machineId, processId))}
  {
    EnoughStaffIff(views, machineId, machines[machineId].machine.staffRequired);
  }

  /**
   * Enough staff for a manual machine: the request succeeds and the machine
   * starts (idle gap booked, last change at `now`, operating, no longer
   * waiting) with the ids of the selected staff appended to its list; no
   * other machine changes.  For `k >= 1` required exactly `k` staff are
   * selected and `k + 1` events scheduled; for `k == 0` the selection is the
   * one staff member the scan grabs, if any.
   */
  lemma TryStartStaffed(machines: seq<MachineState>, views: seq<StaffState>,
                        machineId: u32, processId: u32, duration: u32, now: u32)
    requires machineId < |machines| && !machines[machineId].machine.isAutomated
    requires |EligibleIndices(views, machineId)| >= machines[machineId].machine.staffRequired
    requires now + duration <= U32_MAX
    ensures var r := TryStart(machines, views, machineId, processId, duration, now);
      var m := machines[machineId];
      var k := m.machine.staffRequired;
      var sel := Selected(views, machineId, k);
      && r.ok
      && (k >= 1 ==> |sel| == k && |r.events| == k + 1)
      && |r.machines| == |machines|
      && (forall i :: 0 <= i < |machines| && i != machineId ==> r.machines[i] == machines[i])
      && r.machines[machineId].machine == m.machine
      && r.machines[machineId].idleTime == m.idleTime + SaturatingSub(now, m.lastStatusChange)
      && r.machines[machineId].lastStatusChange == now
      && r.machines[machineId].isOperating && r.machines[machineId].waitingFor == None
      && r.machines[machineId].assignedStaff == m.assignedStaff + IdsOf(views, sel)
  {
    var k := machines[machineId].machine.staffRequired;
    EnoughStaffIff(views, machineId, k);
    TryStartStaffedShape(machines, views, machineId, processId, duration, now);
    ReleaseEventsContent(IdsOf(views, Selected(views, machineId, k)), machineId, SimulationTime(now + duration));
  }

  /**
   * The events of a staffed start: one `StaffReleased` per selected staff
   * member and one `ProcessComplete`, nothing else, all at `now + duration`.
   */
  lemma TryStartStaffedEvents(machines: seq<MachineState>, views: seq<StaffState>,
                              machineId: u32, processId: u32, duration: u32, now: u32)
    requires machineId < |machines| && !machines[machineId].machine.isAutomated
    requires |EligibleIndices(views, machineId)| >= machines[machineId].machine.staffRequired
    requires now + duration <= U32_MAX
    ensures var r := TryStart(machines, views, machineId, processId, duration, now);
      var ids := IdsOf(views, Selected(views, machineId, machines[machineId].machine.staffRequired));
      var end := SimulationTime(now + duration);
      && r.events == multiset(ReleaseEvents(ids, machineId, end)) + multiset{Event(end, ProcessComplete(machineId, processId))}
      && |r.events| == |ids| + 1
      && (forall id | id in ids :: Event(end, StaffReleased(id, machineId)) in r.events)
      && Event(end, ProcessComplete(machineId, processId)) in r.events
      && (forall e | e in r.events :: e.time == end)
  {
    var ids := IdsOf(views, Selected(views, machineId, machines[machineId].machine.staffRequired));
    var end := SimulationTime(now + duration);
    TryStartStaffedShape(machines, views, machineId, processId, duration, now);
    ReleaseEventsContent(ids, machineId, end);
    forall id | id in ids
      ensures Event(end, StaffReleased(id, machineId)) in multiset(ReleaseEvents(ids, machineId, end))
    {
      var j :| 0 <= j < |ids| && ids[j] == id;
    }
  }

  /** The staffed branch of `TryStart`, unfolded once. */
  lemma TryStartStaffedShape(machines: seq<MachineState>, views: seq<StaffState>,
                             machineId: u32, processId: u32, duration: u32, now: u32)
    requires machineId < |machines| && !machines[machineId].machine.isAutomated
    requires |EligibleIndices(views, machineId)| >= machines[machineId].machine.staffRequired
    requires now + duration <= U32_MAX
    ensures var m := machines[machineId];
      var sel := Selected(views, machineId, m.machine.staffRequired);
      var ids := IdsOf(views, sel);
      var end := SimulationTime(now + duration);
      TryStart(machines, views, machineId, processId, duration, now) ==
        StartResult(true,
                    machines[machineId := Started(m, now).(assignedStaff := m.assignedStaff + ids)],
                    AssignEach(views, sel, machineId, duration, now),
                    multiset(ReleaseEvents(ids, machineId, end)) + multiset{Event(end, ProcessComplete(machineId, processId))})
  {
    EnoughStaffIff(views, machineId, machines[machineId].machine.staffRequired);
  }

  /** The release events: one per id, in a bag of that size, all at `t`. */
  lemma ReleaseEventsContent(ids: seq<u32>, machineId: u32, t: SimulationTime)
    ensures |multiset(ReleaseEvents(ids, machineId, t))| == |ids|
    ensures forall j :: 0 <= j < |ids| ==> Event(t, StaffReleased(ids[j], machineId)) in multiset(ReleaseEvents(ids, machineId, t))
    ensures forall e | e in multiset(ReleaseEvents(ids, machineId, t)) :: e.time == t && e.eventType.StaffReleased?
  {
    var evs := ReleaseEvents(ids, machineId, t);
    forall j | 0 <= j < |ids|
      ensures Event(t, StaffReleased(ids[j], machineId)) in multiset(evs)
    {
      assert evs[j] in multiset(evs);
    }
    forall e | e in multiset(evs)
      ensures e.time == t && e.eventType.StaffReleased?
    {
      var i :| 0 <= i < |evs| && evs[i] == e;
    }
  }

  /**
   * Enough staff for a manual machine: exactly the selected staff, the first
   * eligible ones in registration order, are assigned until `now + duration`,
   * and nobody else changes.
   */
  lemma TryStartStaffedAssigns(machines: seq<MachineState>, views: seq<StaffState>,
                               machineId: u32, processId: u32, duration: u32, now: u32)
    requires machineId < |machines| && !machines[machineId].machine.isAutomated
    requires |EligibleIndices(views, machineId)| >= machines[machineId].machine.staffRequired
    requires now + duration <= U32_MAX
    ensures var r := TryStart(machines, views, machineId, processId, duration, now);
      var sel := Selected(views, machineId, machines[machineId].machine.staffRequired);
      && (forall j :: 0 <= j < |views| && j !in sel ==> r.staff[j] == views[j])
      && (forall j :: j in sel ==> 0 <= j < |views| && CanAssign(views[j], machineId)
                                   && r.staff[j] == Assigned(views[j], machineId, duration, now))
  {
    var k := machines[machineId].machine.staffRequired;
    EnoughStaffIff(views, machineId, k);
    SelectionIsFirstFit(views, machineId, k);
    var sel := Selected(views, machineId, k);
    var r := TryStart(machines, views, machineId, processId, duration, now);
    assert r.staff == AssignEach(views, sel, machineId, duration, now);
    AssignEachSelected(views, sel, machineId, duration, now);
  }

  // ---------------------------------------------------------------------------
  // The reconciliation pass finalize_idle_time
  // ---------------------------------------------------------------------------

  /** What the first loop of the pass does to one staff member. */
  function FinalizeStaff(s: StaffState, machines: seq<MachineState>, now: u32): StaffState
  {
    // release once the committed end time has passed
    var s1 := if !s.isAvailable && now >= s.availableAt then Released(s, now) else s;
    // release a busy member whose machine is unknown, stopped or no longer lists them
    var s2 :=
      if !s1.isAvailable && s1.currentMachine.Some? then
        var mid := s1.currentMachine.value;
        if mid < |machines| then
          if !machines[mid].isOperating || s1.id !in machines[mid].assignedStaff then Released(s1, now) else s1
        else
          Released(s1, now)
      else
        s1;
    IdleAccumulated(s2, now)
  }

  /** The first staff member with the given id: what `iter_mut().find` returns. */
  function IndexOfId(views: seq<StaffState>, id: u32): (r: Option<nat>)
    ensures r.Some? ==> r.value < |views| && views[r.value].id == id
    ensures r.Some? ==> forall l :: 0 <= l < r.value ==> views[l].id != id
    ensures r.None? ==> forall l :: 0 <= l < |views| ==> views[l].id != id
    decreases |views|
  {
    if |views| == 0 then None
    else if views[0].id == id then Some(0)
    else
      match IndexOfId(views[1..], id)
      case None => None
      case Some(k) => Some(k + 1)
  }

  /** Some machine among `ms` is stopped and still lists `id`. */
  predicate Drained(id: u32, ms: seq<MachineState>)
    decreases |ms|
  {
    && |ms| > 0
    && (Drained(id, ms[..|ms| - 1])
        || (!ms[|ms| - 1].isOperating && id in ms[|ms| - 1].assignedStaff))
  }

  /** `Drained` holds exactly when some stopped machine lists the id. */
  lemma {:induction false} DrainedIff(id: u32, ms: seq<MachineState>)
    ensures Drained(id, ms) <==> exists i :: 0 <= i < |ms| && !ms[i].isOperating && id in ms[i].assignedStaff
    decreases |ms|
  {
    if |ms| > 0 {
      var front := ms[..|ms| - 1];
      DrainedIff(id, front);
      if exists i :: 0 <= i < |ms| && !ms[i].isOperating && id in ms[i].assignedStaff {
        var i :| 0 <= i < |ms| && !ms[i].isOperating && id in ms[i].assignedStaff;
        if i < |ms| - 1 {
          assert front[i] == ms[i];
        }
      }
    }
  }

  /** The first match depends on the ids alone. */
  lemma IndexOfIdSameIds(a: seq<StaffState>, b: seq<StaffState>, id: u32)
    requires |a| == |b| && forall j :: 0 <= j < |a| ==> a[j].id == b[j].id
    ensures IndexOfId(a, id) == IndexOfId(b, id)
  {
  }

  /** One more machine drains exactly the ids it lists, if it is stopped. */
  lemma DrainedStep(id: u32, ms: seq<MachineState>, i: nat)
    requires i < |ms|
    ensures Drained(id, ms[..i + 1]) <==>
      Drained(id, ms[..i]) || (!ms[i].isOperating && id in ms[i].assignedStaff)
  {
    assert ms[..i + 1][..i] == ms[..i];
  }

  /** The staff after the first loop of the pass. */
  function ReconciledStaff(views: seq<StaffState>, machines: seq<MachineState>, now: u32): (r: seq<StaffState>)
    ensures |r| == |views|
  {
    seq(|views|, j requires 0 <= j < |views| => FinalizeStaff(views[j], machines, now))
  }

  /**
   * Member `j` after the stopped machines among `ms` have handed back their
   * staff: each listed id releases the first member with that id.
   */
  function AfterDrain(v: seq<StaffState>, ms: seq<MachineState>, j: nat, now: u32): StaffState
    requires j < |v|
  {
    if IndexOfId(v, v[j].id) == Some(j) && Drained(v[j].id, ms) then Released(v[j], now) else v[j]
  }

  /** The staff after the second loop of the pass. */
  function DrainedStaff(v: seq<StaffState>, ms: seq<MachineState>, now: u32): (r: seq<StaffState>)
    ensures |r| == |v|
  {
    seq(|v|, j requires 0 <= j < |v| => AfterDrain(v, ms, j, now))
  }

  /**
   * The inner drain loop, step by step: for each listed id in turn, the
   * first member with that id is released.
   */
  function ReleaseIds(v: seq<StaffState>, ids: seq<u32>, now: u32): (r: seq<StaffState>)
    ensures |r| == |v|
    decreases |ids|
  {
    if ids == [] then v
    else
      var prev := ReleaseIds(v, ids[..|ids| - 1], now);
      match IndexOfId(prev, ids[|ids| - 1])
      case None => prev
      case Some(p) => prev[p := Released(prev[p], now)]
  }

  /** The machine loop's effect on the staff, machine by machine. */
  function DrainAll(v: seq<StaffState>, ms: seq<MachineState>, now: u32): (r: seq<StaffState>)
    ensures |r| == |v|
    decreases |ms|
  {
    if ms == [] then v
    else
      var prev := DrainAll(v, ms[..|ms| - 1], now);
      var m := ms[|ms| - 1];
      if !m.isOperating && |m.assignedStaff| > 0 then ReleaseIds(prev, m.assignedStaff, now) else prev
  }

  /** One more round of `ReleaseIds`. */
  lemma ReleaseIdsRound(v: seq<StaffState>, ids: seq<u32>, k: nat, now: u32)
    requires k < |ids|
    ensures var prev := ReleaseIds(v, ids[..k], now);
      var p := IndexOfId(prev, ids[k]);
      ReleaseIds(v, ids[..k + 1], now) == if p.None? then prev else prev[p.value := Released(prev[p.value], now)]
  {
    assert ids[..k + 1][..k] == ids[..k];
  }

  /** One more round of `DrainAll`. */
  lemma DrainAllRound(v: seq<StaffState>, ms: seq<MachineState>, i: nat, now: u32)
    requires i < |ms|
    ensures DrainAll(v, ms[..i + 1], now) ==
      if !ms[i].isOperating && |ms[i].assignedStaff| > 0
      then ReleaseIds(DrainAll(v, ms[..i], now), ms[i].assignedStaff, now)
      else DrainAll(v, ms[..i], now)
  {
    assert ms[..i + 1][..i] == ms[..i];
  }

  /**
   * Releasing the listed ids one by one releases exactly the first member of
   * each listed id, once, and keeps every id.
   */
  lemma {:induction false} ReleaseIdsEffect(w: seq<StaffState>, ids: seq<u32>, now: u32)
    ensures forall j :: 0 <= j < |w| ==> ReleaseIds(w, ids, now)[j].id == w[j].id
    ensures forall j :: 0 <= j < |w| ==>
      ReleaseIds(w, ids, now)[j] ==
        if IndexOfId(w, w[j].id) == Some(j) && w[j].id in ids then Released(w[j], now) else w[j]
    decreases |ids|
  {
    if ids != [] {
      var front := ids[..|ids| - 1];
      var x := ids[|ids| - 1];
      assert ids == front + [x];
      ReleaseIdsEffect(w, front, now);
      var prev := ReleaseIds(w, front, now);
      IndexOfIdSameIds(prev, w, x);
      forall j | 0 <= j < |w|
        ensures ReleaseIds(w, ids, now)[j] ==
          if IndexOfId(w, w[j].id) == Some(j) && w[j].id in ids then Released(w[j], now) else w[j]
      {
        ReleaseIdempotent(w[j], now);
        IndexOfIdSameIds(prev, w, w[j].id);
      }
    }
  }

  /** Draining machine by machine gives the closed form `DrainedStaff`. */
  lemma {:induction false} DrainAllIsDrained(v: seq<StaffState>, ms: seq<MachineState>, now: u32)
    ensures forall j :: 0 <= j < |v| ==> DrainAll(v, ms, now)[j].id == v[j].id
    ensures DrainAll(v, ms, now) == DrainedStaff(v, ms, now)
    decreases |ms|
  {
    if ms != [] {
      var front := ms[..|ms| - 1];
      var m := ms[|ms| - 1];
      DrainAllIsDrained(v, front, now);
      var prev := DrainAll(v, front, now);
      ReleaseIdsEffect(prev, m.assignedStaff, now);
      forall j | 0 <= j < |v|
        ensures DrainAll(v, ms, now)[j] == AfterDrain(v, ms, j, now)
      {
        ReleaseIdempotent(v[j], now);
        IndexOfIdSameIds(prev, v, v[j].id);
        DrainedStep(v[j].id, ms, |ms| - 1);
        assert ms[..|ms| - 1] == front;
        assert ms[..|ms|] == ms;
      }
    }
  }

  /** The staff after the whole pass. */
  function FinalizedStaff(views: seq<StaffState>, machines: seq<MachineState>, now: u32): (r: seq<StaffState>)
    ensures |r| == |views|
  {
    DrainedStaff(ReconciledStaff(views, machines, now), machines, now)
  }

  /** What the second loop of the pass does to one machine. */
  function FinalizeMachine(m: MachineState, now: u32): MachineState
  {
    if m.isOperating then m
    else if now > m.lastStatusChange then
      m.(assignedStaff := [], idleTime := m.idleTime + (now - m.lastStatusChange), lastStatusChange := now)
    else
      m.(assignedStaff := [])
  }

  /** The machines after the whole pass. */
  function FinalizedMachines(machines: seq<MachineState>, now: u32): (r: seq<MachineState>)
    ensures |r| == |machines|
  {
    seq(|machines|, i requires 0 <= i < |machines| => FinalizeMachine(machines[i], now))
  }

  /**
   * The repair of a busy staff member whose machine is unknown, stopped or
   * no longer lists them never changes anything: by then the member is busy
   * only if the committed end time lies ahead, and the release guard refuses.
   */
  lemma DesyncRepairNeverFires(s: StaffState, machines: seq<MachineState>, now: u32)
    ensures FinalizeStaff(s, machines, now) ==
      IdleAccumulated(if !s.isAvailable && now >= s.availableAt then Released(s, now) else s, now)
  {
  }

  /**
   * After the pass every stopped machine lists no staff and its ledger has
   * reached `now`; a running machine is untouched; no idle ledger shrinks.
   */
  lemma FinalizeMachinesEffect(machines: seq<MachineState>, now: u32, i: nat)
    requires i < |machines|
    ensures var r := FinalizedMachines(machines, now)[i];
      && (!machines[i].isOperating ==> r.assignedStaff == [] && r.lastStatusChange >= now)
      && (machines[i].isOperating ==> r == machines[i])
      && r.idleTime >= machines[i].idleTime
      && r.isOperating == machines[i].isOperating
  {
  }

  /**
   * For staff: a member whose committed end time has passed is available
   * afterwards; a member busy with that time still ahead is left exactly as
   * they were, even when their machine has stopped; no idle ledger shrinks.
   */
  lemma FinalizeStaffEffect(views: seq<StaffState>, machines: seq<MachineState>, now: u32, j: nat)
    requires j < |views|
    ensures var r := FinalizedStaff(views, machines, now)[j];
      && (!views[j].isAvailable && now >= views[j].availableAt ==> r.isAvailable && r.currentMachine == None)
      && (!views[j].isAvailable && now < views[j].availableAt ==> r == views[j])
      && r.idleTime >= views[j].idleTime
      && r.id == views[j].id
  {
    DesyncRepairNeverFires(views[j], machines, now);
  }

  /** A member is settled at `now`: busy only until a later time, available with a ledger up to `now`. */
  predicate Settled(s: StaffState, now: u32)
  {
    (!s.isAvailable ==> now < s.availableAt) && (s.isAvailable ==> s.lastStatusChange >= now)
  }

  /** The first loop leaves every member settled and leaves a settled member alone. */
  lemma FinalizeStaffSettles(s: StaffState, machines: seq<MachineState>, now: u32)
    ensures Settled(FinalizeStaff(s, machines, now), now)
    ensures Settled(Released(FinalizeStaff(s, machines, now), now), now)
    ensures Settled(s, now) ==> FinalizeStaff(s, machines, now) == s
  {
    DesyncRepairNeverFires(s, machines, now);
  }

  /** Machines that list no staff while stopped drain nobody. */
  lemma {:induction false} NothingDrained(id: u32, ms: seq<MachineState>)
    requires forall i :: 0 <= i < |ms| && !ms[i].isOperating ==> ms[i].assignedStaff == []
    ensures !Drained(id, ms)
    decreases |ms|
  {
    if |ms| > 0 {
      NothingDrained(id, ms[..|ms| - 1]);
    }
  }

  /**
   * The pass is idempotent: running it again at the same `now` changes no
   * staff member and no machine, so in particular books no further idle time.
   */
  lemma FinalizeIdempotent(views: seq<StaffState>, machines: seq<MachineState>, now: u32)
    ensures FinalizedMachines(FinalizedMachines(machines, now), now) == FinalizedMachines(machines, now)
    ensures FinalizedStaff(FinalizedStaff(views, machines, now), FinalizedMachines(machines, now), now)
            == FinalizedStaff(views, machines, now)
  {
    var ms1 := FinalizedMachines(machines, now);
    var w := FinalizedStaff(views, machines, now);
    var v1 := ReconciledStaff(views, machines, now);
    forall j | 0 <= j < |w|
      ensures Settled(w[j], now)
    {
      FinalizeStaffSettles(views[j], machines, now);
      assert v1[j] == FinalizeStaff(views[j], machines, now);
    }
    forall i | 0 <= i < |ms1| && !ms1[i].isOperating
      ensures ms1[i].assignedStaff == []
    {
      FinalizeMachinesEffect(machines, now, i);
    }
    var w1 := ReconciledStaff(w, ms1, now);
    forall j | 0 <= j < |w|
      ensures w1[j] == w[j]
    {
      FinalizeStaffSettles(w[j], ms1, now);
      NothingDrained(w1[j].id, ms1);
    }
    assert w1 == w;
    forall j | 0 <= j < |w|
      ensures !Drained(w1[j].id, ms1)
    {
      NothingDrained(w1[j].id, ms1);
    }
  }
}
