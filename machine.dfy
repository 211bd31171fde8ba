/** Static machine definitions (src/model/machine.rs). */
module Machines {
  import opened Base

  datatype MachineType = MachineType(id: u32, name: string, staffRequired: u32, isAutomated: bool) {

    /** Whether starting this machine has to acquire staff. */
    predicate NeedsStaff()
    {
      !isAutomated && staffRequired > 0
    }
  }

  /** A machine operated by `staffRequired` staff; it needs staff exactly when that count is positive. */
  function NewMachine(id: u32, name: string, staffRequired: u32): (m: MachineType)
    ensures m.id == id && m.name == name
    ensures m.staffRequired == staffRequired && !m.isAutomated
    ensures m.NeedsStaff() <==> staffRequired > 0
  {
    MachineType(id, name, staffRequired, false)
  }

  /** A fully automated machine: no staff required, and it never needs staff. */
  function Automated(id: u32, name: string): (m: MachineType)
    ensures m.id == id && m.name == name
    ensures m.staffRequired == 0 && m.isAutomated
    ensures !m.NeedsStaff()
  {
    MachineType(id, name, 0, true)
  }
}
