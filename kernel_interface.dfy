/** The CPU monitor's own kill interface, which reports a `KillResult` instead of a
    `PlatformError`. */
module KernelInterface {
  import opened Common
  import opened Posix
  import MacKernel

  datatype KillResult =
    | Success
    | ProcessNotFound
    | PermissionDenied
    | ProcessUnkillable(reason: string)
    | UnknownError(errno: int)

  predicate IsKernelProcess(pid: nat) {
    pid == 0 || pid == 1
  }

  /** The pending-I/O probe is a stub that never reports pending I/O. */
  predicate HasPendingIo(pid: nat) {
    false
  }

  /** `force_kill_process`: `kill(pid, SIGKILL)` reported `outcome`. */
  function ForceKillProcess(pid: nat, outcome: SysResult): (r: KillResult)
    ensures r == Success <==> outcome.Succeeded?
    ensures outcome == Failed(ESRCH) ==> r == ProcessNotFound
    ensures outcome == Failed(EPERM) ==> r == PermissionDenied
    ensures outcome == Failed(EINVAL) ==> r == UnknownError(EINVAL)
    ensures r.ProcessUnkillable? <==>
              outcome.Failed? && outcome.errno !in {ESRCH, EPERM, EINVAL} && IsKernelProcess(pid)
    ensures r.ProcessUnkillable? ==> r.reason == "Kernel process cannot be killed"
    ensures r.UnknownError? ==> r.errno == outcome.errno
  {
    match outcome
    case Succeeded => Success
    case Failed(errno) =>
      if errno == ESRCH then ProcessNotFound
      else if errno == EPERM then PermissionDenied
      else if errno == EINVAL then UnknownError(errno)
      else if IsKernelProcess(pid) then ProcessUnkillable("Kernel process cannot be killed")
      else if HasPendingIo(pid) then ProcessUnkillable("Process has pending I/O operations")
      else UnknownError(errno)
  }

  /** `terminate_process`: `kill(pid, SIGTERM)` reported `outcome`; a refusal is never
      called unkillable. */
  function TerminateProcess(pid: nat, outcome: SysResult): (r: KillResult)
    ensures r == Success <==> outcome.Succeeded?
    ensures outcome == Failed(ESRCH) ==> r == ProcessNotFound
    ensures outcome == Failed(EPERM) ==> r == PermissionDenied
    ensures outcome.Failed? && outcome.errno != ESRCH && outcome.errno != EPERM ==> r == UnknownError(outcome.errno)
    ensures !r.ProcessUnkillable?
  {
    match outcome
    case Succeeded => Success
    case Failed(errno) =>
      if errno == ESRCH then ProcessNotFound
      else if errno == EPERM then PermissionDenied
      else UnknownError(errno)
  }

  /** `suspend_process` (SIGSTOP): true iff `kill` returned 0. */
  function SuspendProcess(pid: nat, outcome: SysResult): (ok: bool)
    ensures ok <==> outcome.Succeeded?
  {
    outcome == Succeeded
  }

  /** `resume_process` (SIGCONT): true iff `kill` returned 0. */
  function ResumeProcess(pid: nat, outcome: SysResult): (ok: bool)
    ensures ok <==> outcome.Succeeded?
  {
    outcome == Succeeded
  }

  /** `get_task_info` is a stub with no answer. */
  function GetTaskInfo(pid: nat): (r: Option<nat>)
    ensures r.None?
  {
    None
  }

  /** The pending-I/O branch is dead: only pids 0 and 1 are ever reported unkillable. */
  lemma PendingIoBranchUnreachable(pid: nat, outcome: SysResult)
    ensures ForceKillProcess(pid, outcome) != ProcessUnkillable("Process has pending I/O operations")
    ensures ForceKillProcess(pid, outcome).ProcessUnkillable? ==> pid == 0 || pid == 1
  {
  }

  /** The two kill paths agree on success, a missing process, a refused permission and
      on which pids are unkillable, except that EINVAL on pid 0 or 1 is "unkillable" for
      the platform layer but an unknown error here. */
  lemma AgreesWithPlatformForceKill(pid: nat, outcome: SysResult)
    ensures (ForceKillProcess(pid, outcome) == Success) <==> MacKernel.ForceKill(pid, outcome).Ok?
    ensures (ForceKillProcess(pid, outcome) == ProcessNotFound) <==>
            (MacKernel.ForceKill(pid, outcome).Err? && MacKernel.ForceKill(pid, outcome).error.ProcessNotFound?)
    ensures (ForceKillProcess(pid, outcome) == PermissionDenied) <==>
            (MacKernel.ForceKill(pid, outcome).Err? && MacKernel.ForceKill(pid, outcome).error.PermissionDenied?)
    ensures outcome != Failed(EINVAL) ==>
            (ForceKillProcess(pid, outcome).ProcessUnkillable? <==>
             (MacKernel.ForceKill(pid, outcome).Err? && MacKernel.ForceKill(pid, outcome).error.ProcessUnkillable?))
    ensures IsKernelProcess(pid) ==>
            ForceKillProcess(pid, Failed(EINVAL)) == UnknownError(EINVAL) &&
            MacKernel.ForceKill(pid, Failed(EINVAL)).error.ProcessUnkillable?
  {
  }
}
