/** The states of a robotkernel module, with the numeric codes the kernel compares. */
module ModuleStates {

  datatype State = Init | Preop | Safeop | Op | Boot | Error

  /** include/robotkernel/module_base.h:50-55 */
  function Code(s: State): (c: nat) {
    match s
    case Init => 0x0001
    case Preop => 0x0002
    case Safeop => 0x0004
    case Op => 0x0008
    case Boot => 0x0010
    case Error => 0x8000
  }

  /** The states of the operational ladder. */
  predicate Regular(s: State) {
    s.Init? || s.Preop? || s.Safeop? || s.Op?
  }

  /** Position on the ladder; boot sits beside init, no hook lies between them. */
  function Rung(s: State): (r: nat) {
    match s
    case Preop => 1
    case Safeop => 2
    case Op => 3
    case _ => 0
  }

  function AtRung(r: nat): State
    requires r < 4
  {
    if r == 0 then Init else if r == 1 then Preop else if r == 2 then Safeop else Op
  }
}
