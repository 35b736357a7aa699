/** The slice of the macOS system interface the process code depends on: errno values,
    signal numbers, and the outcome of a system call, which the model takes as input. */
module Posix {

  // errno values of <sys/errno.h> on macOS
  const EPERM: int := 1
  const ESRCH: int := 3
  const EACCES: int := 13
  const EINVAL: int := 22

  // signal numbers of <sys/signal.h> on macOS
  const SIGINT: int := 2
  const SIGKILL: int := 9
  const SIGTERM: int := 15
  const SIGSTOP: int := 17
  const SIGCONT: int := 19

  /** What a call such as `kill` or `setpriority` reported: 0, or -1 with `errno` set. */
  datatype SysResult = Succeeded | Failed(errno: int)

  /** What running an external command gave: its standard output (decoded lossily
      as UTF-8), or the reason it could not be started. */
  datatype CommandOutput = Spawned(stdout: string) | SpawnFailed(reason: string)

  /** What running an external command to completion gave: whether it exited successfully
      and its standard output (decoded lossily as UTF-8), or that it could not be started. */
  datatype CommandRun = Exited(success: bool, stdout: string) | NotStarted
}
