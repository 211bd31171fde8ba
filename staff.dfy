/**
 * Roles and staff members (src/model/staff.rs).
 *
 * A `Staff` object is updated in place by its methods; `View()` is its value
 * as a `StaffState`, and each method is specified by a function on that value
 * (`Assigned`, `Released`, `IdleAccumulated`), about which the lemmas below
 * are stated.  Times are `u32`; the idle-time ledger is an unbounded `nat`.
 */
module Staffing {
  import opened Base

  /** A role; an empty machine list means the role may work on any machine. */
  datatype Role = Role(id: u32, name: string, machineIds: seq<u32>) {

    predicate CanWorkOn(machineId: u32)
    {
      if |machineIds| == 0 then true else machineId in machineIds
    }
  }

  /** An unrestricted role: it may work on every machine. */
  function NewRole(id: u32, name: string): (r: Role)
    ensures r.id == id && r.name == name && r.machineIds == []
    ensures forall m: u32 :: r.CanWorkOn(m)
  {
    Role(id, name, [])
  }

  /** A role restricted to `machineIds`; a non-empty list admits exactly its members. */
  function Specialist(id: u32, name: string, machineIds: seq<u32>): (r: Role)
    ensures r.id == id && r.name == name && r.machineIds == machineIds
    ensures machineIds != [] ==> forall m: u32 :: r.CanWorkOn(m) <==> m in machineIds
    ensures machineIds == [] ==> forall m: u32 :: r.CanWorkOn(m)
  {
    Role(id, name, machineIds)
  }

  /** A specialist for machines 0 and 1 accepts both and rejects machine 2. */
  lemma SpecialistAcceptsOnlyListed()
    ensures Specialist(1, "CNC Specialist", [0, 1]).CanWorkOn(0)
    ensures Specialist(1, "CNC Specialist", [0, 1]).CanWorkOn(1)
    ensures !Specialist(1, "CNC Specialist", [0, 1]).CanWorkOn(2)
  {
  }

  /** The value of a staff member's fields. */
  datatype StaffState = StaffState(
    id: u32,
    name: string,
    role: Role,
    isAvailable: bool,
    currentMachine: Option<u32>,
    availableAt: u32,
    idleTime: nat,
    lastStatusChange: u32)

  /** A freshly created staff member: available, on no machine, every counter at zero. */
  function NewStaffState(id: u32, name: string, role: Role): (s: StaffState)
    ensures s.id == id && s.name == name && s.role == role
    ensures s.isAvailable && s.currentMachine == None
    ensures s.availableAt == 0 && s.idleTime == 0 && s.lastStatusChange == 0
  {
    StaffState(id, name, role, true, None, 0, 0, 0)
  }

  /** The guard of `assign_to_machine`. */
  predicate CanAssign(s: StaffState, machineId: u32)
  {
    s.isAvailable && s.role.CanWorkOn(machineId)
  }

  /** The state after a successful assignment at `now` for `duration` minutes. */
  function Assigned(s: StaffState, machineId: u32, duration: u32, now: u32): StaffState
    requires now + duration <= U32_MAX
  {
    s.(idleTime := s.idleTime + SaturatingSub(now, s.lastStatusChange),
       isAvailable := false,
       currentMachine := Some(machineId),
       availableAt := now + duration,
       lastStatusChange := now)
  }

  /** The state after `release_from_machine(now)`: nothing happens before `availableAt`. */
  function Released(s: StaffState, now: u32): StaffState
  {
    if now >= s.availableAt then
      s.(isAvailable := true, currentMachine := None, lastStatusChange := now)
    else
      s
  }

  /** The state after `accumulate_idle_until(now)`. */
  function IdleAccumulated(s: StaffState, now: u32): StaffState
  {
    if s.isAvailable && now > s.lastStatusChange then
      s.(idleTime := s.idleTime + (now - s.lastStatusChange), lastStatusChange := now)
    else
      s
  }

  /** Available exactly when on no machine: the occupancy invariant the three operations keep. */
  predicate Consistent(s: StaffState)
  {
    s.isAvailable <==> s.currentMachine.None?
  }

  /** Assignment: busy on the machine until `now + duration`, the idle gap before `now` booked. */
  lemma AssignedEffect(s: StaffState, machineId: u32, duration: u32, now: u32)
    requires now + duration <= U32_MAX
    ensures var r := Assigned(s, machineId, duration, now);
      && r.idleTime == s.idleTime + SaturatingSub(now, s.lastStatusChange)
      && !r.isAvailable && r.currentMachine == Some(machineId)
      && r.availableAt == now + duration && r.lastStatusChange == now
      && r.id == s.id && r.role == s.role
      && Consistent(r)
  {
  }

  /** Release before the committed end time changes nothing; release never changes the idle ledger. */
  lemma ReleaseGuard(s: StaffState, now: u32)
    ensures now < s.availableAt ==> Released(s, now) == s
    ensures now >= s.availableAt ==>
      var r := Released(s, now);
      r.isAvailable && r.currentMachine == None && r.lastStatusChange == now
    ensures Released(s, now).idleTime == s.idleTime
    ensures Consistent(s) ==> Consistent(Released(s, now))
  {
  }

  /** Releasing twice at the same time is releasing once. */
  lemma ReleaseIdempotent(s: StaffState, now: u32)
    ensures Released(Released(s, now), now) == Released(s, now)
  {
  }

  /** An assignment followed by a release before its end time is left in force. */
  lemma EarlyReleaseKeepsAssignment(s: StaffState, machineId: u32, duration: u32, now: u32, t: u32)
    requires now + duration <= U32_MAX
    requires t < now + duration
    ensures Released(Assigned(s, machineId, duration, now), t) == Assigned(s, machineId, duration, now)
  {
  }

  /**
   * Accumulation never lowers the ledger, does nothing while busy, and is
   * idempotent; accumulating to `t1` and then to a later `t2` books the same
   * idle time as accumulating to `t2` at once.
   */
  lemma AccumulateLaws(s: StaffState, t1: u32, t2: u32)
    ensures IdleAccumulated(s, t1).idleTime >= s.idleTime
    ensures !s.isAvailable ==> IdleAccumulated(s, t1) == s
    ensures IdleAccumulated(IdleAccumulated(s, t1), t1) == IdleAccumulated(s, t1)
    ensures t1 <= t2 ==> IdleAccumulated(IdleAccumulated(s, t1), t2) == IdleAccumulated(s, t2)
    ensures Consistent(s) ==> Consistent(IdleAccumulated(s, t1))
  {
  }

  /**
   * The life of one operator with an unrestricted role: assigned at 0 for 10
   * minutes (no idle time booked yet), refused a second machine while busy,
   * released at 10, then idle until 20, which books 10 idle minutes.
   */
  lemma OperatorScenario(s0: StaffState, id: u32, name: string, role: Role)
    requires s0 == NewStaffState(id, name, role) && role.machineIds == []
    ensures CanAssign(s0, 0)
    ensures Assigned(s0, 0, 10, 0).idleTime == 0
    ensures Assigned(s0, 0, 10, 0).availableAt == 10
    ensures !CanAssign(Assigned(s0, 0, 10, 0), 1)
    ensures Released(Assigned(s0, 0, 10, 0), 10).isAvailable
    ensures Released(Assigned(s0, 0, 10, 0), 10).currentMachine == None
    ensures IdleAccumulated(Released(Assigned(s0, 0, 10, 0), 10), 20).idleTime == 10
  {
  }

  /** A specialist for machines 0 and 1 is taken on machine 0 and, once released, refused machine 2. */
  lemma SpecialistRestriction(tag: string)
    ensures var s0 := NewStaffState(0, tag, Specialist(0, tag, [0, 1]));
      && CanAssign(s0, 0)
      && !CanAssign(Released(Assigned(s0, 0, 10, 0), 10), 2)
  {
  }

  /** A staff member whose fields the scheduling engine updates in place. */
  class Staff {
    var id: u32
    var name: string
    var role: Role
    var isAvailable: bool
    var currentMachine: Option<u32>
    var availableAt: u32
    var idleTime: nat
    var lastStatusChange: u32

    function View(): StaffState
      reads this
    {
      StaffState(id, name, role, isAvailable, currentMachine, availableAt, idleTime, lastStatusChange)
    }

    constructor (id: u32, name: string, role: Role)
      ensures View() == NewStaffState(id, name, role)
    {
      this.id := id;
      this.name := name;
      this.role := role;
      isAvailable := true;
      currentMachine := None;
      availableAt := 0;
      idleTime := 0;
      lastStatusChange := 0;
    }

    function CanWorkOn(machineId: u32): bool
      reads this
    {
      role.CanWorkOn(machineId)
    }

    /** Takes the staff member for `duration` minutes from `currentTime`, when available and allowed. */
    method AssignToMachine(machineId: u32, duration: u32, currentTime: u32) returns (ok: bool)
      requires CanAssign(View(), machineId) ==> currentTime + duration <= U32_MAX
      modifies this
      ensures ok == CanAssign(old(View()), machineId)
      ensures ok ==> View() == Assigned(old(View()), machineId, duration, currentTime)
      ensures !ok ==> View() == old(View())
    {
      if isAvailable && CanWorkOn(machineId) {
        idleTime := idleTime + SaturatingSub(currentTime, lastStatusChange);
        isAvailable := false;
        currentMachine := Some(machineId);
        availableAt := currentTime + duration;
        lastStatusChange := currentTime;
        ok := true;
      } else {
        ok := false;
      }
    }

    method ReleaseFromMachine(currentTime: u32)
      modifies this
      ensures View() == Released(old(View()), currentTime)
    {
      if currentTime >= availableAt {
        isAvailable := true;
        currentMachine := None;
        lastStatusChange := currentTime;
      }
    }

    method AccumulateIdleUntil(currentTime: u32)
      modifies this
      ensures View() == IdleAccumulated(old(View()), currentTime)
    {
      if isAvailable && currentTime > lastStatusChange {
        idleTime := idleTime + (currentTime - lastStatusChange);
        lastStatusChange := currentTime;
      }
    }
  }
}
