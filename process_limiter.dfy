/** CPU limits on other processes (monitors/cpu/src/process_limiter.rs): a nice value derived
    from the percentage, the optional `cpulimit` tool, and the table of active limits. Every
    OS call is an input: the `getpriority`/`setpriority` outcomes, whether `which cpulimit`
    and `cpulimit` succeeded, and the `sysctl` CPU count. */
module ProcessLimiter {
  import opened Common
  import opened Strings
  import opened Posix

  datatype LimitType = Nice | Affinity | CpuLimit | Combined

  datatype LimitError = PermissionDenied | ProcessNotFound | InvalidLimit | SystemError(message: string)

  datatype CpuLimit = CpuLimit(
    pid: nat,
    maxCpuPercent: real,
    niceValue: int,
    originalNice: Option<int>,
    affinityMask: Option<nat>,
    limitType: LimitType)

  /** `getpriority` as observed: the value returned and `errno` afterwards (reset to 0 first). */
  datatype PriorityQuery = PriorityQuery(value: int, errno: int)

  /** The errno mapping shared by `set_nice_value` and `get_nice_value`. */
  function ErrnoError(errno: int): (e: LimitError)
    ensures errno == EPERM <==> e == PermissionDenied
    ensures errno == ESRCH <==> e == ProcessNotFound
    ensures e != InvalidLimit
    ensures e.SystemError? ==> e.message == "errno: " + IntToString(errno)
  {
    if errno == EPERM then PermissionDenied
    else if errno == ESRCH then ProcessNotFound
    else SystemError("errno: " + IntToString(errno))
  }

  /** `set_nice_value`: Ok exactly when `setpriority` returned 0. */
  function SetNiceValue(outcome: SysResult): (r: Result<Unit, LimitError>)
    ensures r.Ok? <==> outcome.Succeeded?
    ensures outcome.Failed? ==> r == Err(ErrnoError(outcome.errno))
  {
    match outcome
    case Succeeded => Ok(Unit)
    case Failed(errno) => Err(ErrnoError(errno))
  }

  /** `get_nice_value`: only a non-zero errno is an error, so a genuine priority of -1 is
      returned as such. */
  function GetNiceValue(q: PriorityQuery): (r: Result<int, LimitError>)
    ensures r.Ok? <==> q.errno == 0
    ensures r.Ok? ==> r.value == q.value
    ensures r.Err? ==> r.error == ErrnoError(q.errno)
  {
    if q.errno != 0 then Err(ErrnoError(q.errno)) else Ok(q.value)
  }

  /** `calculate_nice_from_limit`: a lower CPU share gives a higher nice value. */
  function NiceFromLimit(percent: real): (nice: int)
    ensures nice in {0, 5, 10, 15, 19}
    ensures percent >= 75.0 <==> nice == 0
    ensures percent < 10.0 <==> nice == 19
  {
    if percent >= 75.0 then 0
    else if percent >= 50.0 then 5
    else if percent >= 25.0 then 10
    else if percent >= 10.0 then 15
    else 19
  }

  /** Granting more CPU never raises the nice value. */
  lemma NiceAntitone(p: real, q: real)
    requires p <= q
    ensures NiceFromLimit(q) <= NiceFromLimit(p)
  {
  }

  /** The nice-calculation examples: 80, 60, 30, 15 and 5 percent give 0, 5, 10, 15 and 19. */
  lemma NiceExamples()
    ensures NiceFromLimit(80.0) == 0 && NiceFromLimit(60.0) == 5 && NiceFromLimit(30.0) == 10
    ensures NiceFromLimit(15.0) == 15 && NiceFromLimit(5.0) == 19
  {
  }

  /** The smallest integer not below `x`. */
  function Ceil(x: real): (c: int)
    ensures c as real >= x && (c - 1) as real < x
  {
    -((-x).Floor)
  }

  /** A float-to-`usize` cast, which saturates negative values at zero. */
  function ToUsize(i: int): (n: nat)
    ensures i >= 0 ==> n == i
    ensures i < 0 ==> n == 0
  {
    if i < 0 then 0 else i
  }

  /** `calculate_allowed_cores`: the cores the percentage covers, rounded up, then at least
      one and at most all of them. */
  function AllowedCores(percent: real, cores: nat): (allowed: nat)
    ensures cores >= 1 ==> 1 <= allowed <= cores
    ensures cores == 0 ==> allowed == 0
    ensures cores >= 1 && 0.0 < percent <= 100.0
            ==> (allowed as real) * 100.0 >= percent * (cores as real)
                && (allowed == 1 || ((allowed - 1) as real) * 100.0 < percent * (cores as real))
  {
    var wanted := ToUsize(Ceil(percent / 100.0 * (cores as real)));
    var atLeastOne := if wanted < 1 then 1 else wanted;
    if atLeastOne > cores then cores else atLeastOne
  }

  /** The core-calculation examples on 8 cores: 100, 50, 25 and 10 percent allow 8, 4, 2 and 1. */
  lemma AllowedCoresExamples()
    ensures AllowedCores(100.0, 8) == 8 && AllowedCores(50.0, 8) == 4
    ensures AllowedCores(25.0, 8) == 2 && AllowedCores(10.0, 8) == 1
  {
    assert Ceil(100.0 / 100.0 * 8.0) == 8;
    assert Ceil(50.0 / 100.0 * 8.0) == 4;
    assert Ceil(25.0 / 100.0 * 8.0) == 2;
    assert Ceil(10.0 / 100.0 * 8.0) == 1;
  }

  /** `set_cpu_affinity`: not supported on macOS, so it always fails. */
  function SetCpuAffinity(pid: nat, allowedCores: nat): (r: Result<nat, LimitError>)
    ensures r.Err? && r.error.SystemError?
  {
    Err(SystemError("CPU affinity not fully supported on macOS"))
  }

  /** The limit type after the affinity step of `limit_process`: an accepted affinity upgrades
      CpuLimit to Combined and Nice to Affinity. */
  function AfterAffinity(t: LimitType, pid: nat, percent: real, cpuCount: Option<nat>): (r: LimitType)
    ensures r == t
  {
    match cpuCount
    case Some(cores) =>
      if cores > 1 && SetCpuAffinity(pid, AllowedCores(percent, cores)).Ok? then
        (if t == LimitType.CpuLimit then Combined else Affinity)
      else t
    case None => t
  }

  /** `LimitPreset`. */
  datatype LimitPreset = High | Medium | Low | Minimal

  /** The percentage `limit_to_preset` applies. */
  function PresetPercent(p: LimitPreset): (percent: real)
    ensures 1.0 <= percent <= 100.0
    ensures percent == match p case High => 75.0 case Medium => 50.0 case Low => 25.0 case Minimal => 10.0
  {
    match p
    case High => 75.0
    case Medium => 50.0
    case Low => 25.0
    case Minimal => 10.0
  }

  /** Each preset lands on its own nice value: High 0, Medium 5, Low 10, Minimal 15. */
  lemma PresetNice(p: LimitPreset)
    ensures NiceFromLimit(PresetPercent(p)) == match p case High => 0 case Medium => 5 case Low => 10 case Minimal => 15
  {
  }

  /** Whether a stored limit can have come from `limit_process`. */
  predicate Stored(pid: nat, l: CpuLimit) {
    l.pid == pid && 1.0 <= l.maxCpuPercent <= 100.0
    && l.niceValue == NiceFromLimit(l.maxCpuPercent)
    && l.originalNice.Some? && l.affinityMask == None
    && (l.limitType == Nice || l.limitType == LimitType.CpuLimit)
  }

  /** What the OS answers during one `limit_process` call. */
  datatype LimitOutcomes = LimitOutcomes(
    nice: PriorityQuery,
    cpulimitOnPath: bool,
    cpulimitStarted: bool,
    setNice: SysResult,
    cpuCount: Option<nat>)

  /** `ProcessCpuLimiter`: the active limits and the cached `which cpulimit` answer. */
  class Limiter {
    var limits: map<nat, CpuLimit>
    var cpulimitAvailable: Option<bool>

    predicate Valid()
      reads this
    {
      forall pid :: pid in limits ==> Stored(pid, limits[pid])
    }

    constructor ()
      ensures Valid() && limits == map[] && cpulimitAvailable == None
    {
      limits := map[];
      cpulimitAvailable := None;
    }

    /** `check_cpulimit_available`: asks `which` once and then answers from the cache. */
    method CheckCpulimitAvailable(onPath: bool) returns (available: bool)
      modifies this
      ensures old(cpulimitAvailable).Some? ==> available == old(cpulimitAvailable).value
      ensures old(cpulimitAvailable).None? ==> available == onPath
      ensures cpulimitAvailable == Some(available)
      ensures limits == old(limits)
    {
      match cpulimitAvailable {
        case Some(cached) =>
          available := cached;
        case None =>
          available := onPath;
          cpulimitAvailable := Some(onPath);
      }
    }

    /** `limit_process(pid, max_percent)`. */
    method LimitProcess(pid: nat, percent: real, os: LimitOutcomes) returns (r: Result<Unit, LimitError>)
      requires Valid()
      modifies this
      ensures Valid()
      ensures (percent < 1.0 || percent > 100.0)
              ==> r == Err(InvalidLimit) && limits == old(limits) && cpulimitAvailable == old(cpulimitAvailable)
      ensures 1.0 <= percent <= 100.0 && os.nice.errno != 0
              ==> r == Err(ErrnoError(os.nice.errno)) && limits == old(limits)
                  && cpulimitAvailable == old(cpulimitAvailable)
      ensures 1.0 <= percent <= 100.0 && os.nice.errno == 0 && os.setNice.Failed?
              ==> r == Err(ErrnoError(os.setNice.errno)) && limits == old(limits)
      ensures r.Ok? <==> 1.0 <= percent <= 100.0 && os.nice.errno == 0 && os.setNice.Succeeded?
      ensures r.Ok? ==> pid in limits && limits == old(limits)[pid := CpuLimit.CpuLimit(pid, percent, NiceFromLimit(percent),
                                   Some(os.nice.value), None, limits[pid].limitType)]
      ensures r.Ok? ==> pid in limits && (limits[pid].limitType == LimitType.CpuLimit <==> cpulimitAvailable == Some(true) && os.cpulimitStarted)
      ensures 1.0 <= percent <= 100.0 && os.nice.errno == 0
              ==> cpulimitAvailable == Some(old(cpulimitAvailable).UnwrapOr(os.cpulimitOnPath))
    {
      if percent < 1.0 || percent > 100.0 {
        return Err(InvalidLimit);
      }
      var original := GetNiceValue(os.nice);
      if original.Err? {
        return Err(original.error);
      }
      var nice := NiceFromLimit(percent);
      var limitType := Nice;
      var available := CheckCpulimitAvailable(os.cpulimitOnPath);
      if available && os.cpulimitStarted {
        limitType := LimitType.CpuLimit;
      }
      var applied := SetNiceValue(os.setNice);
      if applied.Err? {
        return Err(applied.error);
      }
      limitType := AfterAffinity(limitType, pid, percent, os.cpuCount);
      limits := limits[pid := CpuLimit.CpuLimit(pid, percent, nice, Some(original.value), None, limitType)];
      r := Ok(Unit);
    }

    /** `remove_limit(pid)`: the entry is dropped first, so it is gone even when restoring the
        original nice value then fails; `stopsCpulimit` says whether the `pkill` of the
        pid's `cpulimit` follows. */
    method RemoveLimit(pid: nat, restore: SysResult) returns (r: Result<Unit, LimitError>, stopsCpulimit: bool)
      requires Valid()
      modifies this
      ensures Valid()
      ensures pid !in old(limits) ==> r == Err(ProcessNotFound) && limits == old(limits) && !stopsCpulimit
      ensures pid in old(limits) ==> limits == old(limits) - {pid} && r == SetNiceValue(restore)
      ensures stopsCpulimit
              <==> (pid in old(limits) && restore.Succeeded? && old(limits)[pid].limitType in {LimitType.CpuLimit, Combined})
      ensures cpulimitAvailable == old(cpulimitAvailable)
    {
      if pid !in limits {
        return Err(ProcessNotFound), false;
      }
      var limit := limits[pid];
      limits := limits - {pid};
      r := SetNiceValue(restore);
      stopsCpulimit := r.Ok? && (limit.limitType == LimitType.CpuLimit || limit.limitType == Combined);
    }

    /** `has_limit`. */
    function HasLimit(pid: nat): (b: bool)
      reads this
      ensures b <==> pid in limits
    {
      pid in limits
    }

    /** `get_limits`: the stored limits, in no particular order. */
    function GetLimits(): (ls: set<CpuLimit>)
      reads this
      requires Valid()
      ensures forall l :: l in ls <==> l.pid in limits && limits[l.pid] == l
    {
      set pid | pid in limits :: limits[pid]
    }

    /** `limit_to_preset`. */
    method LimitToPreset(pid: nat, preset: LimitPreset, os: LimitOutcomes) returns (r: Result<Unit, LimitError>)
      requires Valid()
      modifies this
      ensures Valid()
      ensures r.Ok? <==> os.nice.errno == 0 && os.setNice.Succeeded?
      ensures os.nice.errno != 0
              ==> r == Err(ErrnoError(os.nice.errno)) && limits == old(limits)
                  && cpulimitAvailable == old(cpulimitAvailable)
      ensures os.nice.errno == 0 && os.setNice.Failed?
              ==> r == Err(ErrnoError(os.setNice.errno)) && limits == old(limits)
      ensures r.Ok? ==> pid in limits && limits[pid].maxCpuPercent == PresetPercent(preset)
      ensures r.Ok? ==> pid in limits
                        && limits == old(limits)[pid := CpuLimit.CpuLimit(pid, PresetPercent(preset),
                                       NiceFromLimit(PresetPercent(preset)), Some(os.nice.value), None,
                                       limits[pid].limitType)]
      ensures r.Ok? ==> pid in limits && (limits[pid].limitType == LimitType.CpuLimit <==> cpulimitAvailable == Some(true) && os.cpulimitStarted)
      ensures os.nice.errno == 0 ==> cpulimitAvailable == Some(old(cpulimitAvailable).UnwrapOr(os.cpulimitOnPath))
    {
      r := LimitProcess(pid, PresetPercent(preset), os);
    }
  }
}
