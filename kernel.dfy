/** The macOS kernel operations: each turns the outcome of one system call into a
    `PlatformError`, with pids 0 (kernel_task) and 1 (launchd) protected. */
module MacKernel {
  import opened Common
  import opened Strings
  import opened Posix
  import opened Platform

  /** kernel_task and launchd. */
  predicate IsKernelProcess(pid: nat) {
    pid == 0 || pid == 1
  }

  /** `force_kill`: the error for a `kill(pid, SIGKILL)` that reported `outcome`. */
  function ForceKill(pid: nat, outcome: SysResult): (r: Result<Unit, PlatformError>)
    ensures r.Ok? <==> outcome.Succeeded?
    ensures outcome == Failed(ESRCH) ==> r == Err(ProcessNotFound(pid))
    ensures outcome == Failed(EPERM) ==> r == Err(PermissionDenied("Cannot kill process " + NatToString(pid)))
    ensures r.Err? && r.error.ProcessUnkillable? <==>
              outcome.Failed? && outcome.errno != ESRCH && outcome.errno != EPERM && IsKernelProcess(pid)
    ensures r.Err? && r.error.SystemCallFailed? <==>
              outcome.Failed? && outcome.errno != ESRCH && outcome.errno != EPERM && !IsKernelProcess(pid)
  {
    match outcome
    case Succeeded => Ok(Unit)
    case Failed(errno) =>
      if errno == ESRCH then Err(ProcessNotFound(pid))
      else if errno == EPERM then Err(PermissionDenied("Cannot kill process " + NatToString(pid)))
      else if IsKernelProcess(pid) then Err(ProcessUnkillable("Kernel process cannot be killed"))
      else Err(SystemCallFailed("kill() failed with errno " + IntToString(errno)))
  }

  /** The error shared by `suspend_process` and `resume_process`; `verb` and
      `signalName` name the operation in the messages. */
  function SignalError(pid: nat, errno: int, verb: string, signalName: string): (e: PlatformError)
    ensures errno == ESRCH ==> e == ProcessNotFound(pid)
    ensures errno == EPERM ==> e == PermissionDenied("Cannot " + verb + " process " + NatToString(pid))
    ensures errno != ESRCH && errno != EPERM ==> e.SystemCallFailed?
    ensures !e.ProcessUnkillable? && !e.NotSupported? && !e.Unknown?
  {
    if errno == ESRCH then ProcessNotFound(pid)
    else if errno == EPERM then PermissionDenied("Cannot " + verb + " process " + NatToString(pid))
    else SystemCallFailed("kill(" + signalName + ") failed with errno " + IntToString(errno))
  }

  /** `suspend_process`: `kill(pid, SIGSTOP)`. */
  function SuspendProcess(pid: nat, outcome: SysResult): (r: Result<Unit, PlatformError>)
    ensures r.Ok? <==> outcome.Succeeded?
    ensures r.Err? ==> r.error == SignalError(pid, outcome.errno, "suspend", "SIGSTOP")
  {
    match outcome
    case Succeeded => Ok(Unit)
    case Failed(errno) => Err(SignalError(pid, errno, "suspend", "SIGSTOP"))
  }

  /** `resume_process`: `kill(pid, SIGCONT)`. */
  function ResumeProcess(pid: nat, outcome: SysResult): (r: Result<Unit, PlatformError>)
    ensures r.Ok? <==> outcome.Succeeded?
    ensures r.Err? ==> r.error == SignalError(pid, outcome.errno, "resume", "SIGCONT")
  {
    match outcome
    case Succeeded => Ok(Unit)
    case Failed(errno) => Err(SignalError(pid, errno, "resume", "SIGCONT"))
  }

  /** Suspending and resuming report only Ok, ProcessNotFound, PermissionDenied or
      SystemCallFailed; even pids 0 and 1 are never reported unkillable by them. */
  lemma SuspendResumeNeverUnkillable(pid: nat, outcome: SysResult)
    ensures SuspendProcess(pid, outcome).Ok? ||
            SuspendProcess(pid, outcome).error.ProcessNotFound? ||
            SuspendProcess(pid, outcome).error.PermissionDenied? ||
            SuspendProcess(pid, outcome).error.SystemCallFailed?
    ensures ResumeProcess(pid, outcome).Ok? ||
            ResumeProcess(pid, outcome).error.ProcessNotFound? ||
            ResumeProcess(pid, outcome).error.PermissionDenied? ||
            ResumeProcess(pid, outcome).error.SystemCallFailed?
  {
  }

  /** `get_process_priority`: `getpriority` returned `priority` and left `errno`. */
  function GetProcessPriority(pid: nat, priority: int, errno: int): (r: Result<int, PlatformError>)
    ensures r.Err? <==> errno != 0 && priority == -1
    ensures r.Ok? ==> r.value == priority
    ensures r.Err? && errno == ESRCH ==> r.error == ProcessNotFound(pid)
    ensures r.Err? && errno == EINVAL ==> r.error == SystemCallFailed("Invalid priority class")
    ensures r.Err? && errno != ESRCH ==> r.error.SystemCallFailed?
  {
    if errno != 0 && priority == -1 then
      if errno == ESRCH then Err(ProcessNotFound(pid))
      else if errno == EINVAL then Err(SystemCallFailed("Invalid priority class"))
      else Err(SystemCallFailed("getpriority() failed with errno " + IntToString(errno)))
    else Ok(priority)
  }

  /** -1 is a legitimate priority: it is an error only together with a non-zero errno. */
  lemma MinusOneIsAPriority(pid: nat)
    ensures GetProcessPriority(pid, -1, 0) == Ok(-1)
    ensures GetProcessPriority(pid, -1, ESRCH) == Err(ProcessNotFound(pid))
    ensures GetProcessPriority(pid, 5, ESRCH) == Ok(5)
  {
  }

  /** The value `set_process_priority` hands to `setpriority`. */
  function PriorityToSet(priority: int): (p: int)
    ensures -20 <= p <= 19
    ensures -20 <= priority <= 19 ==> p == priority
    ensures priority < -20 ==> p == -20
    ensures priority > 19 ==> p == 19
  {
    Clamp(priority, -20, 19)
  }

  /** `set_process_priority`: `setpriority(pid, PriorityToSet(priority))` reported `outcome`.
      Both EPERM and EACCES are a permission problem. */
  function SetProcessPriority(pid: nat, priority: int, outcome: SysResult): (r: Result<Unit, PlatformError>)
    ensures r.Ok? <==> outcome.Succeeded?
    ensures outcome == Failed(ESRCH) ==> r == Err(ProcessNotFound(pid))
    ensures r.Err? && r.error.PermissionDenied? <==> outcome == Failed(EPERM) || outcome == Failed(EACCES)
    ensures outcome == Failed(EACCES) ==> r == Err(PermissionDenied("Insufficient privileges to set priority"))
    ensures outcome == Failed(EPERM) ==>
              r == Err(PermissionDenied("Cannot set priority for process " + NatToString(pid)))
    ensures r.Err? ==> !r.error.ProcessUnkillable?
  {
    match outcome
    case Succeeded => Ok(Unit)
    case Failed(errno) =>
      if errno == ESRCH then Err(ProcessNotFound(pid))
      else if errno == EPERM then Err(PermissionDenied("Cannot set priority for process " + NatToString(pid)))
      else if errno == EACCES then Err(PermissionDenied("Insufficient privileges to set priority"))
      else Err(SystemCallFailed("setpriority() failed with errno " + IntToString(errno)))
  }

  /** The kernel-process checks the platform tests make. */
  lemma KernelProcessExamples()
    ensures IsKernelProcess(0) && IsKernelProcess(1) && !IsKernelProcess(9999)
  {
  }
}
