/** Types and constants shared by the whole model. */
module Basics {
  datatype Option<+T> = None | Some(value: T)

  // The four heartbeat state changes (HB_started, HB_stopped_warn, HB_restarted_warn, HB_stopped_error).
  datatype Kind = Started | StopWarn | Restarted | StopError

  // One call of hb_update_notify.
  datatype Event = Event(component: string, kind: Kind)

  // What HSM is told about a component: a State and a Flag.
  datatype HsmState = Ready | Standby
  datatype HsmFlag = OK | Warning | Alert
  datatype View = View(state: HsmState, flag: HsmFlag)

  const TWO_32: int := 0x1_0000_0000
  const TWO_63: int := 0x8000_0000_0000_0000
  const TWO_64: int := 0x1_0000_0000_0000_0000

  /** The State and Flag that createBSI puts into the bulk record of each kind. */
  function KindView(kind: Kind): View {
    match kind
    case Started => View(Ready, OK)
    case Restarted => View(Ready, OK)
    case StopWarn => View(Ready, Warning)
    case StopError => View(Standby, Alert)
  }
}
