/** Policy actions, as the integers the compiler passes around, and the seccomp return
    value each of them stands for. */
module Actions {
  import opened Words

  const ACTION_KILL: int := 1
  const ACTION_ALLOW: int := 2
  const ACTION_LOG: int := 3
  const ACTION_KILL_PROCESS: int := 4
  const ACTION_USER_NOTIF: int := 5
  const ACTION_BASIC_MAX: int := 5
  const ACTION_TRAP: int := 0x10000
  const ACTION_ERRNO: int := 0x20000
  const ACTION_TRACE: int := 0x40000

  const SECCOMP_RET_KILL: u32 := 0
  const SECCOMP_RET_KILL_PROCESS: u32 := 0x8000_0000
  const SECCOMP_RET_ALLOW: u32 := 0x7fff_0000
  const SECCOMP_RET_LOG: u32 := 0x7ffc_0000
  const SECCOMP_RET_USER_NOTIF: u32 := 0x7fc0_0000
  const SECCOMP_RET_TRAP: u32 := 0x0003_0000
  const SECCOMP_RET_ERRNO: u32 := 0x0005_0000
  const SECCOMP_RET_TRACE: u32 := 0x7ff0_0000

  /** The actions the grammar can produce: a basic one, or TRAP, ERRNO or TRACE
      together with a 16-bit value. */
  predicate ValidAction(action: int) {
    || 1 <= action <= ACTION_BASIC_MAX
    || ACTION_TRAP <= action < ACTION_TRAP + 0x10000
    || ACTION_ERRNO <= action < ACTION_ERRNO + 0x10000
    || ACTION_TRACE <= action < ACTION_TRACE + 0x10000
  }

  /** The seccomp return value of an action. The tag and the 16-bit value occupy disjoint
      bits, so joining them is an addition. */
  function ActionToBpf(action: int): u32
    requires ValidAction(action)
  {
    if action == ACTION_KILL then SECCOMP_RET_KILL
    else if action == ACTION_KILL_PROCESS then SECCOMP_RET_KILL_PROCESS
    else if action == ACTION_ALLOW then SECCOMP_RET_ALLOW
    else if action == ACTION_LOG then SECCOMP_RET_LOG
    else if action == ACTION_USER_NOTIF then SECCOMP_RET_USER_NOTIF
    else
      var tag, value := action - action % 0x10000, action % 0x10000;
      if tag == ACTION_TRAP then SECCOMP_RET_TRAP + value
      else if tag == ACTION_ERRNO then SECCOMP_RET_ERRNO + value
      else SECCOMP_RET_TRACE + value
  }

  /** The return values of the actions without a value. */
  lemma BasicCodes()
    ensures ActionToBpf(ACTION_KILL) == 0 && ActionToBpf(ACTION_KILL_PROCESS) == 0x8000_0000
    ensures ActionToBpf(ACTION_ALLOW) == 0x7fff_0000 && ActionToBpf(ACTION_LOG) == 0x7ffc_0000
    ensures ActionToBpf(ACTION_USER_NOTIF) == 0x7fc0_0000
  {
  }

  /** The others keep their value in the low half of the return value. */
  lemma ValueCodes(value: int)
    requires 0 <= value <= 0xffff
    ensures ValidAction(ACTION_TRAP + value) && ActionToBpf(ACTION_TRAP + value) == 0x3_0000 + value
    ensures ValidAction(ACTION_ERRNO + value) && ActionToBpf(ACTION_ERRNO + value) == 0x5_0000 + value
    ensures ValidAction(ACTION_TRACE + value) && ActionToBpf(ACTION_TRACE + value) == 0x7ff0_0000 + value
  {
  }

  /** What a return value asks the kernel to do with a call. */
  datatype Treatment =
    | KillThread
    | KillProcess
    | Allow
    | Log
    | UserNotif
    | Trap(value: int)
    | Errno(value: int)
    | Trace(value: int)
    | Unknown

  /** The upper half of a return value says what, the lower half is a value for it. */
  function TreatmentOf(code: u32): Treatment {
    var what, value := code / 0x1_0000, code % 0x1_0000;
    if what == 0 then KillThread
    else if what == 0x8000 then KillProcess
    else if what == 0x7fff then Allow
    else if what == 0x7ffc then Log
    else if what == 0x7fc0 then UserNotif
    else if what == 3 then Trap(value)
    else if what == 5 then Errno(value)
    else if what == 0x7ff0 then Trace(value)
    else Unknown
  }

  /** What an action is for. */
  function Purpose(action: int): Treatment {
    if action == ACTION_KILL then KillThread
    else if action == ACTION_KILL_PROCESS then KillProcess
    else if action == ACTION_ALLOW then Allow
    else if action == ACTION_LOG then Log
    else if action == ACTION_USER_NOTIF then UserNotif
    else if ACTION_TRAP <= action <= ACTION_TRAP + 0xffff then Trap(action - ACTION_TRAP)
    else if ACTION_ERRNO <= action <= ACTION_ERRNO + 0xffff then Errno(action - ACTION_ERRNO)
    else if ACTION_TRACE <= action <= ACTION_TRACE + 0xffff then Trace(action - ACTION_TRACE)
    else Unknown
  }

  /** The return value of an action makes the kernel do what the action is for. */
  lemma CodeServesPurpose(action: int)
    requires ValidAction(action)
    ensures TreatmentOf(ActionToBpf(action)) == Purpose(action) != Unknown
  {
    BasicCodes();
    if action > ACTION_BASIC_MAX { ValueCodes(action % 0x1_0000); }
  }

  /** Different actions have different return values. */
  lemma ActionToBpfInjective(a: int, b: int)
    requires ValidAction(a) && ValidAction(b)
    requires ActionToBpf(a) == ActionToBpf(b)
    ensures a == b
  {
  }
}
