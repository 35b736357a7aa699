/** The process list of the CPU monitor (monitors/cpu/src/process_monitor.rs): a cache of
    per-process records reconciled with each process-table snapshot, a refresh counter that
    decides when the snapshot is a full one, and the filters over the cache. The process table
    `sysinfo` returns is an input, keyed by pid; the clock is an explicit millisecond count. */
module ProcessMonitor {
  import opened Common
  import opened Strings

  /** `sysinfo::ProcessStatus`. */
  datatype SysStatus =
    | Idle | Run | Sleep | Stop | Zombie | Tracing | Dead | Wakekill | Waking | Parked
    | LockBlocked | UninterruptibleDiskSleep | UnknownStatus(code: nat)

  /** The `Debug` rendering of a status, which the cache stores as text: the variant's name,
      and for an unknown status the raw code in parentheses, as in "Unknown(3)". */
  function StatusName(s: SysStatus): (name: string)
    ensures name != []
    ensures s.UnknownStatus? <==> '(' in name
    ensures s.UnknownStatus? ==> |name| > 9 && name[..8] == "Unknown(" && name[|name| - 1] == ')'
                                 && AllDigits(name[8..|name| - 1])
                                 && DigitsValue(name[8..|name| - 1]) == s.code
  {
    match s
    case Idle => "Idle"
    case Run => "Run"
    case Sleep => "Sleep"
    case Stop => "Stop"
    case Zombie => "Zombie"
    case Tracing => "Tracing"
    case Dead => "Dead"
    case Wakekill => "Wakekill"
    case Waking => "Waking"
    case Parked => "Parked"
    case LockBlocked => "LockBlocked"
    case UninterruptibleDiskSleep => "UninterruptibleDiskSleep"
    case UnknownStatus(code) =>
      var digits := NatToString(code);
      var name := "Unknown(" + digits + ")";
      assert name[..8] == "Unknown(" && name[7] == '(' && name[8..|name| - 1] == digits;
      NatToStringValue(code);
      name
  }

  /** The renderings of a few statuses, as `format!("{:?}", ..)` prints them. */
  lemma StatusNameExamples()
    ensures StatusName(UninterruptibleDiskSleep) == "UninterruptibleDiskSleep"
    ensures StatusName(Run) == "Run" && StatusName(Zombie) == "Zombie"
    ensures StatusName(UnknownStatus(3)) == "Unknown(3)"
    ensures StatusName(UnknownStatus(42)) == "Unknown(42)"
  {
  }

  /** Distinct statuses are stored as distinct text, so the cached status identifies the
      `sysinfo` status, unknown codes included. */
  lemma StatusNameInjective(a: SysStatus, b: SysStatus)
    ensures StatusName(a) == StatusName(b) ==> a == b
  {
  }

  /** One process of a `sysinfo` snapshot. */
  datatype Sample = Sample(
    name: string,
    cpuUsage: real,
    memory: nat,
    status: SysStatus,
    parent: Option<nat>,
    runTime: nat)

  /** `ProcessInfo`. */
  datatype ProcessInfo = ProcessInfo(
    pid: nat,
    name: string,
    cpuUsage: real,
    memoryMb: real,
    status: string,
    parentPid: Option<nat>,
    threadCount: nat,
    runTime: nat,
    userTime: real,
    systemTime: real)

  /** A process seen for the first time: one thread, no user or system time yet. */
  function FreshInfo(pid: nat, s: Sample): (p: ProcessInfo)
    ensures p.pid == pid && p.name == s.name && p.parentPid == s.parent
    ensures p.threadCount == 1 && p.userTime == 0.0 && p.systemTime == 0.0
    ensures p.cpuUsage == s.cpuUsage && p.status == StatusName(s.status) && p.runTime == s.runTime
  {
    ProcessInfo(pid, s.name, s.cpuUsage, (s.memory as real) / 1024.0, StatusName(s.status), s.parent,
                1, s.runTime, 0.0, 0.0)
  }

  /** A process seen before: only usage, memory, status and run time are refreshed. */
  function RefreshedInfo(p: ProcessInfo, s: Sample): (q: ProcessInfo)
    ensures q.pid == p.pid && q.name == p.name && q.parentPid == p.parentPid
    ensures q.threadCount == p.threadCount && q.userTime == p.userTime && q.systemTime == p.systemTime
    ensures q.cpuUsage == s.cpuUsage && q.status == StatusName(s.status) && q.runTime == s.runTime
  {
    p.(cpuUsage := s.cpuUsage, memoryMb := (s.memory as real) / 1024.0,
       status := StatusName(s.status), runTime := s.runTime)
  }

  /** The cache entry a snapshot's process gets, given the cache before. */
  function Entry(cache: map<nat, ProcessInfo>, pid: nat, s: Sample): ProcessInfo {
    if pid in cache then RefreshedInfo(cache[pid], s) else FreshInfo(pid, s)
  }

  /** The cache `update_process_cache` leaves. */
  function Reconciled(cache: map<nat, ProcessInfo>, snapshot: map<nat, Sample>): map<nat, ProcessInfo> {
    map pid | pid in snapshot :: Entry(cache, pid, snapshot[pid])
  }

  /** One pass of the refresh loop keeps its invariant: the pid taken from those remaining
      gets the entry reconciliation gives it, and nothing else changes. */
  lemma RefreshStep(before: map<nat, ProcessInfo>, snapshot: map<nat, Sample>, cache: map<nat, ProcessInfo>,
                    seen: set<nat>, remaining: set<nat>, pid: nat)
    requires remaining + seen == snapshot.Keys && remaining !! seen && pid in remaining
    requires cache.Keys == before.Keys + seen
    requires forall q :: q in seen ==> cache[q] == Entry(before, q, snapshot[q])
    requires forall q :: q in before && q !in seen ==> cache[q] == before[q]
    ensures var next := cache[pid := Entry(cache, pid, snapshot[pid])];
            && next.Keys == before.Keys + (seen + {pid})
            && (forall q :: q in seen + {pid} ==> next[q] == Entry(before, q, snapshot[q]))
            && (forall q :: q in before && q !in seen + {pid} ==> next[q] == before[q])
  {
  }

  /** The `retain` after the refresh loop: keeping the pids seen in the snapshot leaves the
      reconciled cache. */
  lemma RetainSeen(before: map<nat, ProcessInfo>, snapshot: map<nat, Sample>, cache: map<nat, ProcessInfo>, seen: set<nat>)
    requires seen == snapshot.Keys
    requires forall pid :: pid in seen ==> pid in cache && cache[pid] == Entry(before, pid, snapshot[pid])
    ensures (map pid | pid in cache && pid in seen :: cache[pid]) == Reconciled(before, snapshot)
  {
  }

  /** After reconciliation the cache holds exactly the snapshot's pids, each under its own pid. */
  lemma ReconciledKeys(cache: map<nat, ProcessInfo>, snapshot: map<nat, Sample>)
    requires forall pid :: pid in cache ==> cache[pid].pid == pid
    ensures Reconciled(cache, snapshot).Keys == snapshot.Keys
    ensures forall pid :: pid in Reconciled(cache, snapshot) ==> Reconciled(cache, snapshot)[pid].pid == pid
  {
  }

  /** A process already cached keeps the name, parent, thread count and times it was first
      recorded with; a new one starts with one thread and no time. */
  lemma ReconciledEntries(cache: map<nat, ProcessInfo>, snapshot: map<nat, Sample>, pid: nat)
    requires pid in snapshot
    ensures var e := Reconciled(cache, snapshot)[pid];
            e.cpuUsage == snapshot[pid].cpuUsage && e.status == StatusName(snapshot[pid].status)
            && e.runTime == snapshot[pid].runTime
            && (pid in cache ==> e.name == cache[pid].name && e.parentPid == cache[pid].parentPid
                                 && e.threadCount == cache[pid].threadCount)
            && (pid !in cache ==> e.name == snapshot[pid].name && e.threadCount == 1
                                  && e.userTime == 0.0 && e.systemTime == 0.0)
  {
  }

  /** Reconciling twice with the same snapshot changes nothing the second time. */
  lemma ReconcileIdempotent(cache: map<nat, ProcessInfo>, snapshot: map<nat, Sample>)
    ensures Reconciled(Reconciled(cache, snapshot), snapshot) == Reconciled(cache, snapshot)
  {
    var once := Reconciled(cache, snapshot);
    forall pid | pid in snapshot ensures Reconciled(once, snapshot)[pid] == once[pid] {
    }
  }

  /** Whether `refresh` (after incrementing the counter) asks for a full refresh: every tenth
      call, or when more than ten whole seconds have passed since the last full one. */
  function NeedsFullRefresh(counter: nat, elapsedMs: nat): (full: bool)
    ensures counter % 10 == 0 ==> full
    ensures elapsedMs >= 11_000 ==> full
    ensures counter % 10 != 0 && elapsedMs < 11_000 ==> !full
  {
    counter % 10 == 0 || elapsedMs / 1000 > 10
  }

  /** `ProcessState`, as `analyze_process_state` derives it from a status. */
  datatype ProcessState = ProcessState(
    isUninterruptible: bool,
    isZombie: bool,
    isIdle: bool,
    isRunning: bool,
    contextSwitches: nat)

  function StateOf(s: SysStatus): (st: ProcessState)
    ensures st.isUninterruptible <==> s == UninterruptibleDiskSleep
    ensures st.isZombie <==> s == Zombie
    ensures st.isIdle <==> s == Idle
    ensures st.isRunning <==> s == Run
    ensures st.contextSwitches == 0
  {
    ProcessState(s == UninterruptibleDiskSleep, s == Zombie, s == Idle, s == Run, 0)
  }

  /** At most one of the four flags is set. */
  lemma StateFlagsExclusive(s: SysStatus)
    ensures var st := StateOf(s);
            (if st.isUninterruptible then 1 else 0) + (if st.isZombie then 1 else 0)
            + (if st.isIdle then 1 else 0) + (if st.isRunning then 1 else 0) <= 1
  {
  }

  /** `ProcessMonitor`. */
  class Monitor {
    var system: map<nat, Sample>
    var processCache: map<nat, ProcessInfo>
    var lastFullRefreshMs: nat
    var refreshCounter: nat

    predicate Valid()
      reads this
    {
      forall pid :: pid in processCache ==> processCache[pid].pid == pid
    }

    /** `ProcessMonitor::new`, with the process table it first reads. */
    constructor (nowMs: nat, snapshot: map<nat, Sample>)
      ensures Valid() && system == snapshot && processCache == map[]
      ensures lastFullRefreshMs == nowMs && refreshCounter == 0
    {
      system := snapshot;
      processCache := map[];
      lastFullRefreshMs := nowMs;
      refreshCounter := 0;
    }

    /** `refresh` at instant `now`, the process table reading `snapshot`. */
    method Refresh(nowMs: nat, snapshot: map<nat, Sample>) returns (full: bool)
      requires Valid()
      modifies this
      ensures Valid()
      ensures refreshCounter == old(refreshCounter) + 1
      ensures full == NeedsFullRefresh(refreshCounter, SaturatingSub(nowMs, old(lastFullRefreshMs)))
      ensures lastFullRefreshMs == if full then nowMs else old(lastFullRefreshMs)
      ensures system == snapshot
      ensures processCache == Reconciled(old(processCache), snapshot)
    {
      refreshCounter := refreshCounter + 1;
      full := NeedsFullRefresh(refreshCounter, SaturatingSub(nowMs, lastFullRefreshMs));
      if full {
        lastFullRefreshMs := nowMs;
      }
      system := snapshot;
      UpdateProcessCache();
    }

    /** `update_process_cache`: update or insert every process of the table, in whatever
        order the table yields them, then drop the pids the table no longer has. */
    method UpdateProcessCache()
      requires Valid()
      modifies this`processCache
      ensures Valid()
      ensures processCache == Reconciled(old(processCache), system)
    {
      ghost var before := processCache;
      var seen: set<nat> := {};
      var remaining := system.Keys;
      while remaining != {}
        invariant remaining + seen == system.Keys && remaining !! seen
        invariant processCache.Keys == before.Keys + seen
        invariant forall pid :: pid in seen ==> processCache[pid] == Entry(before, pid, system[pid])
        invariant forall pid :: pid in before && pid !in seen ==> processCache[pid] == before[pid]
        decreases remaining
      {
        var pid :| pid in remaining;
        var sample := system[pid];
        RefreshStep(before, system, processCache, seen, remaining, pid);
        if pid in processCache {
          processCache := processCache[pid := RefreshedInfo(processCache[pid], sample)];
        } else {
          processCache := processCache[pid := FreshInfo(pid, sample)];
        }
        seen := seen + {pid};
        remaining := remaining - {pid};
      }
      RetainSeen(before, system, processCache, seen);
      processCache := map pid | pid in processCache && pid in seen :: processCache[pid];
    }

    /** `get_process`. */
    function GetProcess(pid: nat): (p: Option<ProcessInfo>)
      reads this
      ensures p.Some? <==> pid in processCache
      ensures p.Some? ==> p.value == processCache[pid]
    {
      if pid in processCache then Some(processCache[pid]) else None
    }

    /** `get_all_processes`, as a set (the map's order is not modelled). */
    function AllProcesses(): (ps: set<ProcessInfo>)
      reads this
      ensures forall p :: p in ps <==> exists pid :: pid in processCache && processCache[pid] == p
    {
      set pid | pid in processCache :: processCache[pid]
    }

    /** `get_high_cpu_processes(threshold)`: the cached processes strictly above it. */
    function HighCpuProcesses(threshold: real): (ps: set<ProcessInfo>)
      reads this
      ensures forall p :: p in ps <==> p in AllProcesses() && p.cpuUsage > threshold
    {
      set pid | pid in processCache && processCache[pid].cpuUsage > threshold :: processCache[pid]
    }

    /** `analyze_process_state(pid)`: taken from the latest table, not from the cache. */
    function AnalyzeProcessState(pid: nat): (st: Option<ProcessState>)
      reads this
      ensures st.Some? <==> pid in system
      ensures st.Some? ==> st.value == StateOf(system[pid].status)
    {
      if pid in system then Some(StateOf(system[pid].status)) else None
    }

    /** `get_unkillable_processes`: the cached processes the latest table shows in
        uninterruptible disk sleep or as zombies. */
    function UnkillableProcesses(): (ps: set<ProcessInfo>)
      reads this
      ensures forall p :: p in ps
                <==> p in AllProcesses() && p.pid in system
                     && system[p.pid].status in {UninterruptibleDiskSleep, Zombie}
    {
      set pid | pid in processCache && AnalyzeProcessState(processCache[pid].pid).Some?
                && (AnalyzeProcessState(processCache[pid].pid).value.isUninterruptible
                    || AnalyzeProcessState(processCache[pid].pid).value.isZombie)
        :: processCache[pid]
    }
  }
}
