/** The memory monitor (monitors/memory/src/memory_monitor.rs): the system memory figures
    and their pressure level, the per-process view with its growth estimate, and the
    per-pid history of resident sizes that a refresh keeps. The process table and the
    memory counters are what the operating system reports at a refresh; the least-squares
    slope of a history is a parameter. */
module MemoryMonitor {
  import opened Common
  import opened Seqs
  import opened Sorting
  import opened SampleHistory

  /** `MemoryPressureLevel`. */
  datatype PressureLevel = Low | Normal | High | Critical

  function PressureRank(l: PressureLevel): nat {
    match l
    case Low => 0
    case Normal => 1
    case High => 2
    case Critical => 3
  }

  /** `from_usage_percent`: below 50 low, below 75 normal, below 90 high, else critical. */
  function FromUsagePercent(percent: real): (l: PressureLevel)
    ensures l == Low <==> percent < 50.0
    ensures l == Normal <==> 50.0 <= percent < 75.0
    ensures l == High <==> 75.0 <= percent < 90.0
    ensures l == Critical <==> percent >= 90.0
  {
    if percent < 50.0 then Low
    else if percent < 75.0 then Normal
    else if percent < 90.0 then High
    else Critical
  }

  /** A higher usage never gives a lower pressure. */
  lemma PressureMonotone(p: real, q: real)
    requires p <= q
    ensures PressureRank(FromUsagePercent(p)) <= PressureRank(FromUsagePercent(q))
  {
  }

  /** `as_str`. */
  function PressureName(l: PressureLevel): (name: string)
    ensures name == ["Low", "Normal", "High", "Critical"][PressureRank(l)]
  {
    match l
    case Low => "Low"
    case Normal => "Normal"
    case High => "High"
    case Critical => "Critical"
  }

  /** Distinct levels have distinct names. */
  lemma PressureNameInjective(a: PressureLevel, b: PressureLevel)
    requires PressureName(a) == PressureName(b)
    ensures a == b
  {
  }

  /** `part` as a percentage of `whole`, 0 when `whole` is 0. */
  function Percent(part: nat, whole: nat): (p: real)
    ensures whole == 0 ==> p == 0.0
    ensures whole > 0 ==> p * (whole as real) == 100.0 * (part as real)
    ensures part <= whole ==> 0.0 <= p <= 100.0
    ensures 0 < whole == part ==> p == 100.0
  {
    if whole > 0 then (part as real) / (whole as real) * 100.0 else 0.0
  }

  /** Counting both figures in bytes rather than KiB leaves the percentage unchanged. */
  lemma PercentScaled(part: nat, whole: nat)
    ensures Percent(1024 * part, 1024 * whole) == Percent(part, whole)
  {
    if whole > 0 {
      assert (1024 * part) as real / (1024 * whole) as real == (part as real) / (whole as real);
    }
  }

  // ---------------------------------------------------------------------------
  // System memory

  /** The counters the system reports, in KiB. */
  datatype MemoryCounters = MemoryCounters(
    totalKib: nat, usedKib: nat, availableKib: nat, freeKib: nat,
    swapTotalKib: nat, swapUsedKib: nat, swapFreeKib: nat)

  /** `MemoryInfo`. */
  datatype MemoryInfo = MemoryInfo(
    totalBytes: nat, usedBytes: nat, availableBytes: nat, freeBytes: nat,
    swapTotalBytes: nat, swapUsedBytes: nat, swapFreeBytes: nat,
    cachedBytes: nat, bufferBytes: nat,
    usagePercent: real, swapUsagePercent: real,
    pressure: PressureLevel)

  /** `get_memory_info`: every counter in bytes, cached and buffer memory 0, the usage
      percentages, and the pressure of the memory usage. */
  function GetMemoryInfo(c: MemoryCounters): (info: MemoryInfo)
    ensures info.totalBytes == 1024 * c.totalKib && info.usedBytes == 1024 * c.usedKib
    ensures info.swapTotalBytes == 1024 * c.swapTotalKib && info.swapUsedBytes == 1024 * c.swapUsedKib
    ensures info.availableBytes == 1024 * c.availableKib && info.freeBytes == 1024 * c.freeKib
    ensures info.swapFreeBytes == 1024 * c.swapFreeKib
    ensures info.cachedBytes == 0 && info.bufferBytes == 0
    ensures info.usagePercent == Percent(info.usedBytes, info.totalBytes)
    ensures info.swapUsagePercent == Percent(info.swapUsedBytes, info.swapTotalBytes)
    ensures info.pressure == FromUsagePercent(info.usagePercent)
  {
    var total, used := 1024 * c.totalKib, 1024 * c.usedKib;
    var swapTotal, swapUsed := 1024 * c.swapTotalKib, 1024 * c.swapUsedKib;
    var usage := Percent(used, total);
    MemoryInfo(total, used, 1024 * c.availableKib, 1024 * c.freeKib,
               swapTotal, swapUsed, 1024 * c.swapFreeKib, 0, 0,
               usage, Percent(swapUsed, swapTotal), FromUsagePercent(usage))
  }

  /** With no memory reported the usage is 0 and the pressure low; with the used memory
      within the total the usage is a percentage. */
  lemma MemoryInfoUsage(c: MemoryCounters)
    ensures c.totalKib == 0 ==> GetMemoryInfo(c).usagePercent == 0.0 && GetMemoryInfo(c).pressure == Low
    ensures c.usedKib <= c.totalKib ==> 0.0 <= GetMemoryInfo(c).usagePercent <= 100.0
    ensures c.totalKib > 0 && c.usedKib == c.totalKib ==> GetMemoryInfo(c).pressure == Critical
  {
  }

  // ---------------------------------------------------------------------------
  // Processes

  /** One process of the table: its pid, name, and resident and virtual sizes in KiB. */
  datatype ProcessSample = ProcessSample(pid: nat, name: string, memoryKib: nat, virtualKib: nat)

  /** `ProcessMemoryInfo`. */
  datatype ProcessMemoryInfo = ProcessMemoryInfo(
    pid: nat, name: string, memoryBytes: nat, virtualMemoryBytes: nat,
    memoryPercent: real, isGrowing: bool, growthRateMbPerMin: real)

  /** Samples kept per pid: one minute at one refresh per second. */
  const HistoryCap: nat := 60

  /** Samples a growth estimate needs. */
  const MinGrowthSamples: nat := 10

  /** `calculate_growth_rate`: with fewer than ten samples, or none, not growing at rate 0;
      otherwise the least-squares slope (megabytes per sample) times 60, growing above
      0.1 megabytes a minute. */
  function GrowthRate(history: map<nat, seq<nat>>, pid: nat, slope: seq<nat> -> real): (g: (bool, real))
    ensures pid !in history || |history[pid]| < MinGrowthSamples ==> g == (false, 0.0)
    ensures pid in history && |history[pid]| >= MinGrowthSamples ==> g.1 == 60.0 * slope(history[pid])
    ensures g.0 <==> g.1 > 0.1
  {
    if pid !in history || |history[pid]| < MinGrowthSamples then (false, 0.0)
    else
      var rate := slope(history[pid]) * 60.0;
      (rate > 0.1, rate)
  }

  /** The entry `get_process_memory_info` builds for one process. */
  function MemoryInfoOf(p: ProcessSample, totalKib: nat, history: map<nat, seq<nat>>, slope: seq<nat> -> real): (info: ProcessMemoryInfo)
    ensures info.pid == p.pid && info.name == p.name
    ensures info.memoryBytes == 1024 * p.memoryKib && info.virtualMemoryBytes == 1024 * p.virtualKib
    ensures info.memoryPercent == Percent(p.memoryKib, totalKib)
    ensures (info.isGrowing, info.growthRateMbPerMin) == GrowthRate(history, p.pid, slope)
  {
    var g := GrowthRate(history, p.pid, slope);
    ProcessMemoryInfo(p.pid, p.name, 1024 * p.memoryKib, 1024 * p.virtualKib,
                      Percent(p.memoryKib, totalKib), g.0, g.1)
  }

  /** The memory in use, the key of the top-processes sort. */
  function MemoryKey(p: ProcessMemoryInfo): real {
    p.memoryBytes as real
  }

  /** `get_top_memory_processes(limit)`: by memory in use, largest first, cut to `limit`. */
  function TopByMemory(infos: seq<ProcessMemoryInfo>, limit: nat): seq<ProcessMemoryInfo> {
    Truncate(SortDesc(infos, MemoryKey), limit)
  }

  /** The top processes are `limit` of them (or all), largest first, drawn from the
      processes. */
  lemma TopByMemorySorted(infos: seq<ProcessMemoryInfo>, limit: nat)
    ensures var top := TopByMemory(infos, limit);
            |top| == (if |infos| <= limit then |infos| else limit)
            && (forall i, j :: 0 <= i < j < |top| ==> top[i].memoryBytes >= top[j].memoryBytes)
            && multiset(top) <= multiset(infos)
  {
    var sorted := SortDesc(infos, MemoryKey);
    var top := TopByMemory(infos, limit);
    assert sorted == top + sorted[|top|..];
    forall i, j | 0 <= i < j < |top| ensures top[i].memoryBytes >= top[j].memoryBytes {
      assert MemoryKey(sorted[i]) >= MemoryKey(sorted[j]);
    }
  }

  /** No process left out of the top uses more memory than one kept. */
  lemma TopByMemoryDominates(infos: seq<ProcessMemoryInfo>, limit: nat, p: ProcessMemoryInfo, q: ProcessMemoryInfo)
    requires p in TopByMemory(infos, limit)
    requires q in multiset(infos) - multiset(TopByMemory(infos, limit))
    ensures p.memoryBytes >= q.memoryBytes
  {
    var sorted := SortDesc(infos, MemoryKey);
    var top := TopByMemory(infos, limit);
    assert top == sorted[..|top|];
    SortedFrontDominates(sorted, MemoryKey, |top|, p, q);
  }

  /** A suspected leak: growing, at more than a megabyte a minute. */
  predicate IsLeak(p: ProcessMemoryInfo) {
    p.isGrowing && p.growthRateMbPerMin > 1.0
  }

  // ---------------------------------------------------------------------------
  // The monitor

  /** What a refresh reads: the memory counters and the process table, in the table's
      iteration order. */
  datatype Snapshot = Snapshot(counters: MemoryCounters, processes: seq<ProcessSample>)

  /** The (pid, resident size) entries a refresh records, in table order. */
  function Samples(processes: seq<ProcessSample>): (entries: seq<(nat, nat)>)
    ensures |entries| == |processes|
  {
    if processes == [] then []
    else
      var last := processes[|processes| - 1];
      Samples(processes[..|processes| - 1]) + [(last.pid, last.memoryKib)]
  }

  lemma {:induction false} SamplesAt(processes: seq<ProcessSample>, i: nat)
    requires i < |processes|
    ensures Samples(processes)[i] == (processes[i].pid, processes[i].memoryKib)
    decreases |processes|
  {
    var n := |processes| - 1;
    if i < n {
      SamplesAt(processes[..n], i);
    }
  }

  /** The pids of the table. */
  function LivePids(processes: seq<ProcessSample>): set<nat> {
    KeysOf(Samples(processes))
  }

  /** The histories after `update_memory_history`: each process's sample pushed, then the
      pids no longer in the table dropped. */
  function UpdatedHistory(history: map<nat, seq<nat>>, processes: seq<ProcessSample>): map<nat, seq<nat>> {
    Retain(RecordAll(history, Samples(processes), HistoryCap), LivePids(processes))
  }

  /** After a refresh the histories are exactly those of the pids in the table, each
      holding one to 60 samples. */
  lemma UpdatedHistoryBounded(history: map<nat, seq<nat>>, processes: seq<ProcessSample>)
    requires Bounded(history, HistoryCap)
    ensures UpdatedHistory(history, processes).Keys == LivePids(processes)
    ensures forall pid :: pid in LivePids(processes) <==> exists i :: 0 <= i < |processes| && processes[i].pid == pid
    ensures Bounded(UpdatedHistory(history, processes), HistoryCap)
  {
    var entries := Samples(processes);
    RecordAllKeys(history, entries, HistoryCap);
    RecordAllBounded(history, entries, HistoryCap);
    forall pid | pid in LivePids(processes) ensures exists i :: 0 <= i < |processes| && processes[i].pid == pid {
      var i :| 0 <= i < |entries| && entries[i].0 == pid;
      SamplesAt(processes, i);
    }
    forall pid | exists i :: 0 <= i < |processes| && processes[i].pid == pid ensures pid in LivePids(processes) {
      var i :| 0 <= i < |processes| && processes[i].pid == pid;
      SamplesAt(processes, i);
      assert entries[i].0 == pid;
    }
  }

  /** The table is keyed by pid, so no pid appears twice. */
  predicate DistinctPids(processes: seq<ProcessSample>) {
    forall i, j :: 0 <= i < j < |processes| ==> processes[i].pid != processes[j].pid
  }

  /** With each pid listed once, each live pid's history is its earlier one, or an empty
      one, with the new sample pushed. */
  lemma UpdatedHistoryPushes(history: map<nat, seq<nat>>, processes: seq<ProcessSample>, i: nat)
    requires DistinctPids(processes) && i < |processes|
    ensures var h := UpdatedHistory(history, processes);
            processes[i].pid in h
            && h[processes[i].pid] == Pushed(Prior(history, processes[i].pid), processes[i].memoryKib, HistoryCap)
  {
    var entries := Samples(processes);
    forall a, b | 0 <= a < b < |entries| ensures entries[a].0 != entries[b].0 {
      SamplesAt(processes, a);
      SamplesAt(processes, b);
    }
    SamplesAt(processes, i);
    RecordAllKeys(history, entries, HistoryCap);
    assert entries[i].0 in KeysOf(entries);
    RecordAllDistinct(history, entries, HistoryCap, i);
  }

  /** `MemoryMonitor`: the latest reading, the histories, and when it was taken. */
  class Monitor {
    var system: Snapshot
    var history: map<nat, seq<nat>>
    var lastUpdate: nat

    predicate Valid()
      reads this
    {
      Bounded(history, HistoryCap)
    }

    /** `MemoryMonitor::new` at instant `now`, reading `snapshot`: no history yet. */
    constructor (now: nat, snapshot: Snapshot)
      ensures Valid() && system == snapshot && history == map[] && lastUpdate == now
    {
      system := snapshot;
      history := map[];
      lastUpdate := now;
    }

    /** `refresh` at instant `now`, the system reading `snapshot`. */
    method Refresh(now: nat, snapshot: Snapshot)
      requires Valid()
      modifies this
      ensures Valid()
      ensures system == snapshot && lastUpdate == now
      ensures history == UpdatedHistory(old(history), snapshot.processes)
    {
      system := snapshot;
      UpdateMemoryHistory();
      lastUpdate := now;
    }

    /** `update_memory_history`: push each process's resident size onto its pid's history,
        capped at 60, then keep only the pids of the table. */
    method UpdateMemoryHistory()
      requires Valid()
      modifies this`history
      ensures Valid()
      ensures history == UpdatedHistory(old(history), system.processes)
    {
      var processes := system.processes;
      var entries := Samples(processes);
      ghost var before := history;
      var recorded := history;
      var i := 0;
      while i < |entries|
        invariant i <= |entries|
        invariant recorded == RecordAll(before, entries[..i], HistoryCap)
      {
        var (pid, memory) := entries[i];
        var h := Pushed(if pid in recorded then recorded[pid] else [], memory, HistoryCap);
        RecordAllPrefix(before, entries, i, HistoryCap, recorded, h);
        recorded := recorded[pid := h];
        i := i + 1;
      }
      assert entries[..i] == entries;
      var live := LivePids(processes);
      history := Retain(recorded, live);
      UpdatedHistoryBounded(before, processes);
    }

    /** `get_memory_pressure`: the pressure of the current memory usage. */
    function MemoryPressure(): (l: PressureLevel)
      reads this
      ensures system.counters.totalKib == 0 ==> l == Low
      ensures l == FromUsagePercent(Percent(system.counters.usedKib, system.counters.totalKib))
    {
      PercentScaled(system.counters.usedKib, system.counters.totalKib);
      GetMemoryInfo(system.counters).pressure
    }

    /** `get_process_memory_info`, in the table's order. */
    function ProcessMemory(slope: seq<nat> -> real): (infos: seq<ProcessMemoryInfo>)
      reads this
      ensures |infos| == |system.processes|
      ensures forall i :: 0 <= i < |infos| ==>
                infos[i] == MemoryInfoOf(system.processes[i], system.counters.totalKib, history, slope)
    {
      var totalKib, h := system.counters.totalKib, history;
      Map(system.processes, (p: ProcessSample) => MemoryInfoOf(p, totalKib, h, slope))
    }

    /** `get_top_memory_processes(limit)`. */
    function TopMemoryProcesses(limit: nat, slope: seq<nat> -> real): seq<ProcessMemoryInfo>
      reads this
    {
      TopByMemory(ProcessMemory(slope), limit)
    }

    /** `detect_memory_leaks`: the processes, in table order, that grow by more than a
        megabyte a minute. */
    function MemoryLeaks(slope: seq<nat> -> real): (leaks: seq<ProcessMemoryInfo>)
      reads this
      ensures forall p :: p in leaks <==> p in ProcessMemory(slope) && p.isGrowing && p.growthRateMbPerMin > 1.0
    {
      var all := ProcessMemory(slope);
      forall p ensures p in Filter(all, IsLeak) <==> p in all && IsLeak(p) {
        FilterMember(all, IsLeak, p);
      }
      Filter(all, IsLeak)
    }
  }

  /** A process is reported as leaking only once its pid has at least ten samples, that is
      after ten refreshes that saw it, and only with a growth rate above one megabyte a
      minute. */
  lemma LeakNeedsTenSamples(m: Monitor, slope: seq<nat> -> real, p: ProcessMemoryInfo)
    requires p in m.MemoryLeaks(slope)
    ensures p.pid in m.history && |m.history[p.pid]| >= MinGrowthSamples
    ensures p.growthRateMbPerMin > 1.0 && p.growthRateMbPerMin == 60.0 * slope(m.history[p.pid])
  {
  }
}
