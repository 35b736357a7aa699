/** The macOS process manager: conversion of a process-table snapshot into
    `ProcessInfo`, signal delivery, and the termination-permission probe. */
module MacProcess {
  import opened Common
  import opened Strings
  import opened Seqs
  import opened Posix
  import opened Platform

  /** The statuses the process-table library reports. */
  datatype SysStatus =
    | Idle
    | Run
    | Sleep
    | Stop
    | Zombie
    | Tracing
    | Dead
    | Wakekill
    | Waking
    | Parked
    | LockBlocked
    | UninterruptibleDiskSleep
    | UnknownCode(code: nat)

  /** One entry of the process table, as the library reports it (memory in KiB). */
  datatype SysProcess = SysProcess(
    pid: nat,
    name: string,
    cpuUsage: real,
    memoryKiB: nat,
    virtualMemoryKiB: nat,
    status: SysStatus,
    parent: Option<nat>,
    tasks: Option<nat>,
    runTime: nat,
    exe: Option<string>,
    cmd: seq<string>,
    environ: seq<string>)

  /** `convert_status`. */
  function ConvertStatus(s: SysStatus): (r: ProcessStatus)
    ensures r != Waiting && r != ProcessStatus.Unkillable
  {
    match s
    case Run => Running
    case Sleep => Sleeping
    case Stop => Stopped
    case Zombie => ProcessStatus.Zombie
    case Idle => ProcessStatus.Idle
    case UninterruptibleDiskSleep => UninterruptibleSleep
    case _ => UnknownStatus
  }

  /** Only disk sleep becomes an unkillable status; six library statuses have a
      counterpart and every other one is Unknown. */
  lemma ConvertStatusClassification(s: SysStatus)
    ensures IsUnkillableStatus(ConvertStatus(s)) <==> s == UninterruptibleDiskSleep
    ensures IsProblematic(ConvertStatus(s)) <==> s == UninterruptibleDiskSleep || s == SysStatus.Zombie
    ensures ConvertStatus(s) == UnknownStatus <==> s !in {Run, Sleep, SysStatus.Stop, SysStatus.Zombie, SysStatus.Idle, UninterruptibleDiskSleep}
  {
  }

  /** One environment entry split at its first '='; without '=' the whole entry is the
      key and the value is empty. */
  function SplitEnvEntry(entry: string): (kv: (string, string))
    ensures '=' in entry ==> entry == kv.0 + "=" + kv.1 && '=' !in kv.0
    ensures '=' !in entry ==> kv == (entry, "")
  {
    match SplitOnce(entry, '=')
    case Some(parts) => parts
    case None => (entry, "")
  }

  /** Splitting "key=value" gives the key and value back, whatever '=' the value holds. */
  lemma SplitEnvEntryRoundTrip(key: string, value: string)
    requires '=' !in key
    ensures SplitEnvEntry(key + "=" + value) == (key, value)
  {
    SplitOnceAt(key, '=', value);
  }

  /** Collecting key-value pairs into a map: a later pair with the same key wins. */
  function Collect<K, V>(ps: seq<(K, V)>): (m: map<K, V>)
    ensures forall i :: 0 <= i < |ps| ==> ps[i].0 in m
    ensures forall k :: k in m ==> exists i :: 0 <= i < |ps| && ps[i].0 == k
  {
    if ps == [] then map[]
    else
      var m := Collect(ps[..|ps| - 1]);
      assert forall i :: 0 <= i < |ps| - 1 ==> ps[..|ps| - 1][i] == ps[i];
      m[ps[|ps| - 1].0 := ps[|ps| - 1].1]
  }

  /** Each key holds the value of the last pair that names it. */
  lemma {:induction false} CollectLastWins<K, V>(ps: seq<(K, V)>, i: int)
    requires 0 <= i < |ps|
    requires forall j :: i < j < |ps| ==> ps[j].0 != ps[i].0
    ensures Collect(ps)[ps[i].0] == ps[i].1
  {
    var n := |ps| - 1;
    if i < n {
      var front := ps[..n];
      forall j | i < j < |front| ensures front[j].0 != front[i].0 {
        assert front[j] == ps[j] && front[i] == ps[i];
      }
      CollectLastWins(front, i);
      assert front[i] == ps[i];
    }
  }

  /** The environment as a map of its split entries. */
  function EnvironmentMap(entries: seq<string>): (m: map<string, string>)
    ensures forall e :: e in entries ==> SplitEnvEntry(e).0 in m
    ensures forall k :: k in m ==> exists e :: e in entries && SplitEnvEntry(e).0 == k
  {
    var ps := Map(entries, SplitEnvEntry);
    assert forall e :: e in entries ==> exists i :: 0 <= i < |entries| && entries[i] == e;
    Collect(ps)
  }

  /** Each variable holds the value of the last entry naming it, as collecting into a map gives. */
  lemma EnvironmentMapLastWins(entries: seq<string>, i: int)
    requires 0 <= i < |entries|
    requires forall j :: i < j < |entries| ==> SplitEnvEntry(entries[j]).0 != SplitEnvEntry(entries[i]).0
    ensures EnvironmentMap(entries)[SplitEnvEntry(entries[i]).0] == SplitEnvEntry(entries[i]).1
  {
    CollectLastWins(Map(entries, SplitEnvEntry), i);
  }

  /** `convert_process_info`. */
  function ConvertProcessInfo(p: SysProcess): (info: ProcessInfo)
    ensures info.pid == p.pid && info.parentPid == p.parent
    ensures info.memoryBytes == 1024 * p.memoryKiB
    ensures info.isUnkillable <==> p.status == UninterruptibleDiskSleep
    ensures info.isUnkillable <==> IsUnkillableStatus(info.status)
    ensures info.threadCount == p.tasks.UnwrapOr(0)
  {
    ProcessInfo(
      p.pid, p.name, p.cpuUsage, p.memoryKiB * 1024, p.virtualMemoryKiB * 1024,
      ConvertStatus(p.status), p.parent, p.tasks.UnwrapOr(0), p.runTime, 0.0, 0.0,
      p.exe, p.cmd, EnvironmentMap(p.environ), 0, 0, 0, 0, 0,
      p.status == UninterruptibleDiskSleep, None)
  }

  /** The first table entry for `pid`. */
  function FindProcess(table: seq<SysProcess>, pid: nat): (r: Option<SysProcess>)
    ensures r.Some? ==> r.value in table && r.value.pid == pid
    ensures r.Some? ==> exists i :: 0 <= i < |table| && table[i] == r.value && forall j :: 0 <= j < i ==> table[j].pid != pid
    ensures r.None? <==> forall p :: p in table ==> p.pid != pid
  {
    if table == [] then None
    else if table[0].pid == pid then Some(table[0])
    else
      var r := FindProcess(table[1..], pid);
      assert r.Some? ==> exists i :: 0 <= i < |table| && table[i] == r.value && forall j :: 0 <= j < i ==> table[j].pid != pid by {
        if r.Some? {
          var k :| 0 <= k < |table[1..]| && table[1..][k] == r.value && forall j :: 0 <= j < k ==> table[1..][j].pid != pid;
          assert table[k + 1] == r.value;
          assert forall j :: 0 <= j < k + 1 ==> table[j].pid != pid by {
            forall j | 0 <= j < k + 1 ensures table[j].pid != pid {
              if j > 0 { assert table[j] == table[1..][j - 1]; }
            }
          }
        }
      }
      r
  }

  /** `list_processes`. */
  function ListProcesses(table: seq<SysProcess>): (r: seq<ProcessInfo>)
    ensures |r| == |table|
    ensures forall i :: 0 <= i < |r| ==> r[i].pid == table[i].pid
    ensures forall i :: 0 <= i < |r| ==> r[i] == ConvertProcessInfo(table[i])
  {
    Map(table, ConvertProcessInfo)
  }

  /** `get_process_info`. */
  function GetProcessInfo(table: seq<SysProcess>, pid: nat): (r: Result<ProcessInfo, PlatformError>)
    ensures r.Err? <==> forall p :: p in table ==> p.pid != pid
    ensures r.Err? ==> r.error == ProcessNotFound(pid)
    ensures r.Ok? ==> r.value.pid == pid
    ensures r.Ok? ==> exists i :: 0 <= i < |table| && r.value == ConvertProcessInfo(table[i]) && forall j :: 0 <= j < i ==> table[j].pid != pid
  {
    match FindProcess(table, pid)
    case Some(p) => Ok(ConvertProcessInfo(p))
    case None => Err(ProcessNotFound(pid))
  }

  /** The macOS number of each signal. */
  function SignalNumber(s: Signal): int {
    match s
    case Terminate => SIGTERM
    case Kill => SIGKILL
    case Stop => SIGSTOP
    case Continue => SIGCONT
    case Interrupt => SIGINT
  }

  /** The five signals go to five different signal numbers, never 0 (the probe). */
  lemma SignalNumberInjective(a: Signal, b: Signal)
    ensures SignalNumber(a) == SignalNumber(b) ==> a == b
    ensures SignalNumber(a) != 0
    ensures SignalNumber(Terminate) == 15 && SignalNumber(Kill) == 9 && SignalNumber(Signal.Stop) == 17
    ensures SignalNumber(Continue) == 19 && SignalNumber(Interrupt) == 2
  {
  }

  /** `send_signal`: `kill(pid, SignalNumber(signal))` reported `outcome`. */
  function SendSignal(pid: nat, signal: Signal, outcome: SysResult): (r: Result<Unit, PlatformError>)
    ensures r.Ok? <==> outcome.Succeeded?
    ensures outcome == Failed(ESRCH) ==> r == Err(ProcessNotFound(pid))
    ensures outcome == Failed(EPERM) ==> r == Err(PermissionDenied("Cannot send signal to process " + NatToString(pid)))
    ensures outcome.Failed? && outcome.errno != ESRCH && outcome.errno != EPERM ==>
              r == Err(SystemCallFailed("kill() failed with errno " + IntToString(outcome.errno)))
  {
    match outcome
    case Succeeded => Ok(Unit)
    case Failed(errno) =>
      if errno == ESRCH then Err(ProcessNotFound(pid))
      else if errno == EPERM then Err(PermissionDenied("Cannot send signal to process " + NatToString(pid)))
      else Err(SystemCallFailed("kill() failed with errno " + IntToString(errno)))
  }

  /** `is_process_responsive`: a listed process is responsive unless in disk sleep. */
  function IsProcessResponsive(table: seq<SysProcess>, pid: nat): (r: Result<bool, PlatformError>)
    ensures r.Err? <==> forall p :: p in table ==> p.pid != pid
    ensures r.Err? ==> r.error == ProcessNotFound(pid)
    ensures r.Ok? ==> (r.value <==> FindProcess(table, pid).value.status != UninterruptibleDiskSleep)
  {
    match FindProcess(table, pid)
    case Some(p) => Ok(p.status != UninterruptibleDiskSleep)
    case None => Err(ProcessNotFound(pid))
  }

  function ChildOf(parent: nat): SysProcess -> Option<nat> {
    (p: SysProcess) => if p.parent == Some(parent) then Some(p.pid) else None
  }

  /** `get_child_processes`: the pids whose parent is `parent`, in table order. */
  function GetChildProcesses(table: seq<SysProcess>, parent: nat): (children: seq<nat>)
    ensures |children| <= |table|
  {
    FilterMap(table, ChildOf(parent))
  }

  /** A pid is reported as a child exactly when its table entry names `parent`. */
  lemma GetChildProcessesExact(table: seq<SysProcess>, parent: nat, pid: nat)
    ensures pid in GetChildProcesses(table, parent) <==>
            exists i :: 0 <= i < |table| && table[i].pid == pid && table[i].parent == Some(parent)
  {
    FilterMapMember(table, ChildOf(parent), pid);
  }

  /** `can_terminate_process`: pids 0 and 1 are refused without probing; otherwise the
      existence probe `kill(pid, 0)` reported `probe`. */
  function CanTerminateProcess(pid: nat, probe: SysResult): (r: Result<bool, PlatformError>)
    ensures pid == 0 || pid == 1 ==> r == Ok(false)
    ensures pid > 1 ==> (r == Ok(true) <==> probe.Succeeded?)
    ensures pid > 1 ==> (r.Err? <==> probe == Failed(ESRCH))
    ensures r.Err? ==> r.error == ProcessNotFound(pid)
  {
    if pid == 0 || pid == 1 then Ok(false)
    else match probe
      case Succeeded => Ok(true)
      case Failed(errno) => if errno == ESRCH then Err(ProcessNotFound(pid)) else Ok(false)
  }

  /** For pids 0 and 1 the answer does not depend on the probe: no signal is needed. */
  lemma ProtectedPidsNeedNoProbe(pid: nat, probe1: SysResult, probe2: SysResult)
    requires pid == 0 || pid == 1
    ensures CanTerminateProcess(pid, probe1) == CanTerminateProcess(pid, probe2) == Ok(false)
  {
  }

  /** Permission refusals and unexpected errors both read as "cannot terminate". */
  lemma RefusalMeansCannotTerminate(pid: nat, errno: int)
    requires pid > 1 && errno != ESRCH
    ensures CanTerminateProcess(pid, Failed(errno)) == Ok(false)
  {
  }
}
