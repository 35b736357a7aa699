# Reaper — a Dafny model of the monitoring core

Reaper is a macOS system monitor. It lists processes and arranges them in a tree. It analyses CPU use and keeps a CPU history. It throttles and limits processes. It watches temperature, memory, disks, network connections and bandwidth. It can also force-kill a process that will not die. This project models the logic of that core in Dafny and proves properties about it.

The system's own boundaries are kept. Everything it gets from the operating system is a parameter of the model. That covers `kill`, `getpriority` and `setpriority` results, sysinfo process tables, `ps`, `lsof`, `netstat`, `ifconfig`, `sysctl` and `df` outputs, clocks, hashes and random draws. What the core does with those values is modelled: parsing, classification, bookkeeping, rolling histories, thresholds, trees and flame graphs.

Code that works step by step becomes a `class` with `modifies` clauses and loops carrying invariants. Each such method is proved against a specification function. Code that only computes becomes functions and lemmas. The modules follow the source files:

| source file | module |
|---|---|
| core/src/platform/mod.rs | `Platform` |
| core/src/platform/macos/kernel.rs | `MacKernel` |
| core/src/platform/macos/process.rs | `MacProcess` |
| core/src/platform/macos/analyzer.rs | `MacAnalyzer` |
| monitors/cpu/src/kernel_interface.rs | `KernelInterface` |
| monitors/cpu/src/flame_graph.rs | `FlameGraph` |
| monitors/cpu/src/cpu_throttler.rs | `CpuThrottler` |
| monitors/cpu/src/process_limiter.rs | `ProcessLimiter` |
| monitors/cpu/src/process_details.rs | `ProcessDetails` |
| monitors/cpu/src/process_monitor.rs | `ProcessMonitor` |
| monitors/cpu/src/process_tree.rs | `ProcessTree` |
| monitors/cpu/src/cpu_analyzer.rs | `CpuAnalyzer` |
| monitors/cpu/src/cpu_history.rs | `CpuHistory`, with `Calendar` and `SortedMap` |
| monitors/cpu/src/thermal_monitor.rs | `ThermalMonitor` |
| monitors/hardware/src/hardware_monitor.rs | `HardwareMonitor` |
| monitors/memory/src/memory_monitor.rs | `MemoryMonitor`, with `SampleHistory` |
| monitors/disk/src/disk_monitor.rs | `DiskMonitor` |
| monitors/disk/src/file_analyzer.rs | `FileAnalyzer` |
| monitors/network/src/connection_tracker.rs | `ConnectionTracker` |
| monitors/network/src/bandwidth_monitor.rs | `BandwidthMonitor` |
| monitors/network/src/network_monitor.rs | `NetworkMonitor` |

Some modules model standard-library behaviour the core relies on: `Common`, `Seqs`, `Strings`, `Sorting` and `Posix`. Examples are `str::lines`, `split_whitespace`, `parse::<u64>`, stable sorting, and the errno codes of `kill`.

## Model

| member | source | states |
|---|---|---|
| Platform.StatusNameInjective | core/src/platform/mod.rs:111-125 | `as_str` gives each status its own name; "Running", "Zombie", "Stopped" and "Uninterruptible" are as documented |
| Platform.ProblematicIsUnkillableOrZombie | core/src/platform/mod.rs:127-135 | a status is problematic exactly when it is unkillable or Zombie; unkillable means Unkillable or UninterruptibleSleep |
| Platform.DisplayInjective | core/src/platform/mod.rs:45-56 | two platform errors that display as the same text are the same error |
| Platform.DisplayInjectiveNotFound | core/src/platform/mod.rs:48 | only `ProcessNotFound(p)` renders as "Process p not found" |
| Platform.DisplayInjectiveUnkillable | core/src/platform/mod.rs:50 | only `ProcessUnkillable(r)` renders as "Process unkillable: r" |
| Platform.DisplayInjectivePermission | core/src/platform/mod.rs:49 | only `PermissionDenied(m)` renders as "Permission denied: m" |
| Platform.DisplayInjectiveUnknown | core/src/platform/mod.rs:53 | only `Unknown(c, m)` renders as "Unknown error c: m" |
| Platform.UnknownParts | core/src/platform/mod.rs:53 | the code and the message of an `Unknown` error can be read back from its text |
| Platform.DisplayExamples | core/src/platform/tests.rs:38-48 | the three renderings the platform tests expect |
| Platform.DefaultCapabilities | core/src/platform/mod.rs:338-350 | the default capabilities: kill, suspend and set priority, no sensors, no elevation |
| Platform.MacOSCapabilities | core/src/platform/mod.rs:352-366 | macOS reports temperature sensors and process groups and needs no elevation |
| Platform.MacOSIsDefaultWithSensors | core/src/platform/mod.rs:338-366 | macOS differs from the default exactly by reporting temperature sensors |
| MacKernel.ForceKill | core/src/platform/macos/kernel.rs:15-40 | success iff `kill(pid, SIGKILL)` succeeded; ESRCH is ProcessNotFound; EPERM is PermissionDenied; any other errno is ProcessUnkillable for pids 0 and 1 and SystemCallFailed otherwise |
| MacKernel.SignalError | core/src/platform/macos/kernel.rs:42-78 | the error of a failed SIGSTOP or SIGCONT: ESRCH not found, EPERM permission denied, anything else a failed system call, never unkillable |
| MacKernel.SuspendProcess | core/src/platform/macos/kernel.rs:42-59 | success iff `kill(pid, SIGSTOP)` succeeded, otherwise the signal error for "suspend" |
| MacKernel.ResumeProcess | core/src/platform/macos/kernel.rs:61-78 | success iff `kill(pid, SIGCONT)` succeeded, otherwise the signal error for "resume" |
| MacKernel.SuspendResumeNeverUnkillable | core/src/platform/macos/kernel.rs:42-78 | suspending and resuming report only Ok, ProcessNotFound, PermissionDenied or SystemCallFailed |
| MacKernel.GetProcessPriority | core/src/platform/macos/kernel.rs:85-106 | an error iff `getpriority` returned -1 with a non-zero errno; ESRCH is ProcessNotFound, EINVAL an invalid priority class; otherwise the priority itself |
| MacKernel.MinusOneIsAPriority | core/src/platform/macos/kernel.rs:85-106 | -1 with errno 0 is a real priority; errno alone without -1 is not an error |
| MacKernel.PriorityToSet | core/src/platform/macos/kernel.rs:108-112 | the requested priority clamped into -20..19 |
| MacKernel.SetProcessPriority | core/src/platform/macos/kernel.rs:108-131 | success iff `setpriority` succeeded; ESRCH not found; EPERM and EACCES (only those) permission denied with their own messages; never unkillable |
| MacKernel.KernelProcessExamples | core/src/platform/tests.rs:64-77 | pids 0 and 1 are kernel processes, 9999 is not |
| MacProcess.ConvertStatus | core/src/platform/macos/process.rs:56-66 | a library status never converts to Waiting or Unkillable |
| MacProcess.ConvertStatusClassification | core/src/platform/macos/process.rs:56-66 | only disk sleep converts to an unkillable status; disk sleep and Zombie are the problematic ones; the six named statuses have a counterpart and all others are Unknown |
| MacProcess.SplitEnvEntry | core/src/platform/macos/process.rs:34-42 | an entry with '=' splits at its first '='; without '=' the entry is the key and the value is empty |
| MacProcess.SplitEnvEntryRoundTrip | core/src/platform/macos/process.rs:34-42 | splitting "key=value" gives back key and value, whatever the value contains |
| MacProcess.Collect | core/src/platform/macos/process.rs:33-43 | collecting pairs into a map gives exactly the keys of the pairs |
| MacProcess.CollectLastWins | core/src/platform/macos/process.rs:33-43 | each key holds the value of the last pair naming it |
| MacProcess.EnvironmentMap | core/src/platform/macos/process.rs:33-43 | the collected map has exactly the keys of the split entries |
| MacProcess.EnvironmentMapLastWins | core/src/platform/macos/process.rs:33-43 | each variable holds the value of the last entry naming it, as collecting into a `HashMap` gives |
| MacProcess.ConvertProcessInfo | core/src/platform/macos/process.rs:19-54 | pid and parent carried over, memory in bytes is 1024 × KiB, thread count defaults to 0, unkillable iff disk sleep iff the converted status is unkillable |
| MacProcess.FindProcess | core/src/platform/macos/process.rs:82-91 | the entry found is the first with the pid asked for; none is found iff no entry has it |
| MacProcess.ListProcesses | core/src/platform/macos/process.rs:70-80 | one entry per table entry, in table order, each the conversion of that table entry |
| MacProcess.GetProcessInfo | core/src/platform/macos/process.rs:82-91 | ProcessNotFound iff no table entry has the pid, otherwise the conversion of the first table entry with that pid |
| MacProcess.SignalNumberInjective | core/src/platform/macos/process.rs:93-103 | the five signals map to the distinct macOS numbers 15, 9, 17, 19 and 2 |
| MacProcess.SendSignal | core/src/platform/macos/process.rs:93-120 | success iff `kill` succeeded; ESRCH not found; EPERM permission denied; any other errno a failed system call naming it |
| MacProcess.IsProcessResponsive | core/src/platform/macos/process.rs:122-133 | ProcessNotFound iff the pid is absent; otherwise responsive iff not in disk sleep |
| MacProcess.GetChildProcesses | core/src/platform/macos/process.rs:135-151 | no more children than table entries |
| MacProcess.GetChildProcessesExact | core/src/platform/macos/process.rs:135-151 | a pid is listed iff its table entry names the parent |
| MacProcess.CanTerminateProcess | core/src/platform/macos/process.rs:153-172 | pids 0 and 1 are refused; otherwise true iff the probe `kill(pid, 0)` succeeded, and an error only for ESRCH |
| MacProcess.ProtectedPidsNeedNoProbe | core/src/platform/macos/process.rs:153-158 | the answer for pids 0 and 1 does not depend on the probe |
| MacProcess.RefusalMeansCannotTerminate | core/src/platform/macos/process.rs:159-172 | any probe error other than ESRCH reads as "cannot terminate" |
| KernelInterface.ForceKillProcess | monitors/cpu/src/kernel_interface.rs:30-52 | success iff SIGKILL succeeded; ESRCH, EPERM and EINVAL have their own results; other errors are unkillable exactly for kernel pids, with the kernel reason |
| KernelInterface.TerminateProcess | monitors/cpu/src/kernel_interface.rs:54-67 | SIGTERM's result: success, not found, permission denied or the raw errno; never unkillable |
| KernelInterface.SuspendProcess | monitors/cpu/src/kernel_interface.rs:73-78 | true iff SIGSTOP succeeded |
| KernelInterface.ResumeProcess | monitors/cpu/src/kernel_interface.rs:80-85 | true iff SIGCONT succeeded |
| KernelInterface.GetTaskInfo | monitors/cpu/src/kernel_interface.rs:69-71 | the stub always answers None |
| KernelInterface.PendingIoBranchUnreachable | monitors/cpu/src/kernel_interface.rs:40-47 | the pending-I/O reason is never reported; only pids 0 and 1 are called unkillable |
| KernelInterface.AgreesWithPlatformForceKill | monitors/cpu/src/kernel_interface.rs:30-52 | this kill path and the platform's agree on success, not found, permission denied and, except for EINVAL, on unkillable pids |
| MacAnalyzer.TestSignalResponse | core/src/platform/macos/analyzer.rs:32-56 | a failed send never counts as a response; signal 0 responds iff it was delivered; any other signal iff delivered, the process still exists afterwards and the wait stayed under the timeout |
| MacAnalyzer.ResponseMonotoneInTimeout | core/src/platform/macos/analyzer.rs:32-56 | a process that responded within a timeout responds within any longer one |
| MacAnalyzer.FailedProbes | core/src/platform/macos/analyzer.rs:104-111 | the failure count never exceeds the number of signals tried |
| MacAnalyzer.FailedSignals | core/src/platform/macos/analyzer.rs:126-132 | the signals recorded as failed are among those tried, one per failed probe |
| MacAnalyzer.CountFailedProbes | core/src/platform/macos/analyzer.rs:104-111 | the loop counts exactly the probes that got no response |
| MacAnalyzer.UnfoldThreeProbes | core/src/platform/macos/analyzer.rs:103-111 | the count is the sum over the probes 0, SIGTERM and SIGCONT |
| MacAnalyzer.VanishedProcessFailsEveryProbe | core/src/platform/macos/analyzer.rs:101-114 | a pid that no longer exists fails all three probes, so it is reported unkillable |
| MacAnalyzer.HealthyProcessPassesEveryProbe | core/src/platform/macos/analyzer.rs:101-114 | a process answering every probe in time fails none |
| MacAnalyzer.NextHistory | core/src/platform/macos/analyzer.rs:116-134 | the history after a verdict: the test time and the verdict are updated and response times are kept; a fresh entry starts empty; only an unkillable verdict appends the signals failing the 100 ms re-test |
| MacAnalyzer.SysctlRow | core/src/platform/macos/analyzer.rs:72-98 | state is the first character of the state column or '?'; "-" means no wait channel; an unparsable nice value reads as 0; time is carried over |
| MacAnalyzer.GetProcessSysctlInfo | core/src/platform/macos/analyzer.rs:58-99 | a spawn failure and a missing data line give their own errors; a row with fewer than six fields is invalid; otherwise the parsed second line |
| MacAnalyzer.SysctlInfoRoundTrip | core/src/platform/macos/analyzer.rs:58-99 | parsing a `ps` output built from given fields gives those fields back |
| MacAnalyzer.GetProcessState | core/src/platform/macos/analyzer.rs:139-152 | the same error as the `ps` query, or its state, wait channel and nice with the fixed defaults |
| MacAnalyzer.UninterruptiblePid | core/src/platform/macos/analyzer.rs:165-173 | a row yields a pid iff it has two fields, a valid u32 first and a 'D' in its state |
| MacAnalyzer.FindUninterruptibleProcesses | core/src/platform/macos/analyzer.rs:154-178 | a spawn failure is an error; otherwise the pids of the 'D' rows after the header, in order |
| MacAnalyzer.UninterruptiblePids | core/src/platform/macos/analyzer.rs:164-175 | the loop collects exactly the pids of the qualifying rows |
| MacAnalyzer.UninterruptibleReportedExactly | core/src/platform/macos/analyzer.rs:154-178 | a pid is reported iff some non-header row yields it |
| MacAnalyzer.AnalyzeIoWait | core/src/platform/macos/analyzer.rs:180-195 | the query's error, or one pending operation and 1000 ms of wait exactly when the process is in I/O wait, with its wait channel |
| MacAnalyzer.TestProcessResponsiveness | core/src/platform/macos/analyzer.rs:197-225 | responds iff the existence probe was delivered, with the measured time; one result per probe signal at 200 ms; likely unkillable iff at least two probes failed |
| MacAnalyzer.GetContextSwitches | core/src/platform/macos/analyzer.rs:227-237 | the placeholder: zero switches, never high frequency |
| MacAnalyzer.DeadlockReport | core/src/platform/macos/analyzer.rs:252-264 | the report names only the pid, confidence 0.7; a network deadlock iff the wait channel mentions "net" or "sock"; the resource is the channel or "unknown" |
| MacAnalyzer.ProcessAnalyzer.constructor | core/src/platform/macos/analyzer.rs:25-30 | the response cache starts empty |
| MacAnalyzer.ProcessAnalyzer.AnalyzeUnkillable | core/src/platform/macos/analyzer.rs:101-137 | unkillable iff at least two of the three 1000 ms probes failed; only the pid's history entry changes |
| MacAnalyzer.ProcessAnalyzer.DetectDeadlock | core/src/platform/macos/analyzer.rs:239-269 | a deadlock is reported iff the process is in state 'D', its history marks it unkillable and the verdict is over 30 s old |
| MacAnalyzer.ProcessAnalyzer.DeadlockImpliesIoWait | core/src/platform/macos/analyzer.rs:180-195 | every reported deadlock is also reported as I/O wait |
| MacAnalyzer.NoDeadlockRightAfterVerdict | core/src/platform/macos/analyzer.rs:116-124 | within 30 s of a verdict no deadlock can be reported |
| FlameGraph.EmptyRoot | monitors/cpu/src/flame_graph.rs:134-142 | a builder starts from a childless "ROOT" node with no samples |
| FlameGraph.FrameKey | monitors/cpu/src/flame_graph.rs:206-218 | the child key is "module::symbol", the bare symbol without a module, or "0x" and the hex address without a symbol |
| FlameGraph.FrameLabel | monitors/cpu/src/flame_graph.rs:94-103 | a new node is named by its symbol, or by "0x" and the hex address |
| FlameGraph.KeyIsLabelUnlessModule | monitors/cpu/src/flame_graph.rs:94-103 | key and displayed name agree exactly when the frame has no symbol or no module |
| FlameGraph.ModulesSeparateKeys | monitors/cpu/src/flame_graph.rs:206-218 | one symbol in two modules gets two different keys, so two nodes |
| FlameGraph.NewNode | monitors/cpu/src/flame_graph.rs:72-103 | a created child carries the frame's key, name and module and starts with no samples and no children |
| FlameGraph.ChildIndex | monitors/cpu/src/flame_graph.rs:94-103 | the child found is the first with the key; the index is past the end iff no child has it |
| FlameGraph.InsertPath | monitors/cpu/src/flame_graph.rs:184-203 | walking a path changes only the nodes below; an empty path adds one self and one total sample to the node itself |
| FlameGraph.InsertPathWellKeyed | monitors/cpu/src/flame_graph.rs:94-103 | inserting a path keeps sibling keys distinct at every level |
| FlameGraph.InsertPathAddsOneSample | monitors/cpu/src/flame_graph.rs:184-203 | each processed trace adds exactly one sample to the tree's self-sample sum |
| FlameGraph.Chain | monitors/cpu/src/flame_graph.rs:184-203 | a path of n frames lays a single chain of nodes keyed by the frames |
| FlameGraph.FirstSampleLaysChain | monitors/cpu/src/flame_graph.rs:184-203 | the first trace into an empty node lays one chain with one sample at the leaf |
| FlameGraph.NextSampleGrowsLeaf | monitors/cpu/src/flame_graph.rs:184-203 | repeating the same trace only raises the leaf's count |
| FlameGraph.ChainShape | monitors/cpu/src/flame_graph.rs:184-203 | depth d of the chain is keyed by frame d; only the leaf holds samples |
| FlameGraph.UpdateTotals | monitors/cpu/src/flame_graph.rs:105-113 | only total counts change; the children and their keys stay in place |
| FlameGraph.UpdateTotalsConsistent | monitors/cpu/src/flame_graph.rs:105-113 | after the pass every node's total is its self samples plus its children's totals, and the root's total is the tree's sample sum |
| FlameGraph.UpdateTotalsWellKeyed | monitors/cpu/src/flame_graph.rs:105-113 | updating totals keeps sibling keys distinct |
| FlameGraph.PruneThreshold | monitors/cpu/src/flame_graph.rs:123-124 | 0.5 % of the total, truncated: the threshold t satisfies 200t <= total < 200(t+1) |
| FlameGraph.Prune | monitors/cpu/src/flame_graph.rs:123-131 | pruning keeps the node and a subset of its children, all of them reaching the threshold |
| FlameGraph.PruneAllReach | monitors/cpu/src/flame_graph.rs:123-131 | after pruning every node below the root reaches the threshold |
| FlameGraph.PruneDominates | monitors/cpu/src/flame_graph.rs:105-131 | on a consistent tree, after pruning every node's total is still at least the sum of its remaining children's totals |
| FlameGraph.PruneZeroKeepsAll | monitors/cpu/src/flame_graph.rs:123-131 | a zero threshold prunes nothing |
| FlameGraph.SmallGraphsAreNotPruned | monitors/cpu/src/flame_graph.rs:123-131 | with fewer than 200 samples nothing is pruned |
| FlameGraph.Percentage | monitors/cpu/src/flame_graph.rs:115-121 | 0 for a zero total, otherwise total samples × 100 / total; never negative and at most 100 for a node within the total |
| FlameGraph.StackOf | monitors/cpu/src/flame_graph.rs:227-232 | the folded stack is the name alone at the top, otherwise the parent stack, ';', then the name |
| FlameGraph.FoldedLineCount | monitors/cpu/src/flame_graph.rs:221-243 | the folded export has one line per node with self samples |
| FlameGraph.FoldedLinesStartWithStack | monitors/cpu/src/flame_graph.rs:227-243 | every exported line starts with the stack of the node it came from |
| FlameGraph.HotCandidates | monitors/cpu/src/flame_graph.rs:294-305 | the collected functions all have self samples and are not ROOT |
| FlameGraph.HotNodes | monitors/cpu/src/flame_graph.rs:279-292 | the top min(limit, candidates) candidates, sorted by descending total, a sub-multiset of the candidates |
| FlameGraph.HotNodesDominate | monitors/cpu/src/flame_graph.rs:279-292 | no candidate left out has more total samples than one kept |
| FlameGraph.TopOfSorted | monitors/cpu/src/flame_graph.rs:283-291 | a stable descending sort truncated to the limit keeps that many candidates, in descending order, as a sub-multiset of them |
| FlameGraph.HotNodesFromCandidates | monitors/cpu/src/flame_graph.rs:279-292 | every hot node reported is one of the tree's candidate nodes, each at most as often as it occurs there |
| FlameGraph.HotFunctions | monitors/cpu/src/flame_graph.rs:279-292 | at most limit sampled non-ROOT nodes, by descending total, each with its percentage of the graph's samples; the nodes are the hot nodes, in order |
| FlameGraph.HotFunctionsDominate | monitors/cpu/src/flame_graph.rs:279-292 | the listed functions are the hottest: no candidate left out has more total samples than one listed |
| FlameGraph.ApplyTrace | monitors/cpu/src/flame_graph.rs:184-203 | an empty trace changes nothing; any other adds one sample |
| FlameGraph.ApplyTracesCounts | monitors/cpu/src/flame_graph.rs:157-164 | processing n non-empty traces adds n samples |
| FlameGraph.IdenticalTracesMakeAChain | monitors/cpu/src/flame_graph.rs:184-203 | n copies of one trace build one chain whose leaf holds n samples |
| FlameGraph.Groups | monitors/cpu/src/flame_graph.rs:157-162 | each thread contributes its queued traces |
| FlameGraph.FlameGraphBuilder.constructor | monitors/cpu/src/flame_graph.rs:134-142 | an empty ROOT, no samples, no queued traces, the given name and pid |
| FlameGraph.FlameGraphBuilder.AddStackTrace | monitors/cpu/src/flame_graph.rs:144-155 | an empty trace is dropped; otherwise it is queued under its thread, or thread 0; the tree is untouched |
| FlameGraph.FlameGraphBuilder.ProcessStackTrace | monitors/cpu/src/flame_graph.rs:184-203 | the tree grows by the trace and the sample count by one unless the trace is empty |
| FlameGraph.FlameGraphBuilder.ProcessAll | monitors/cpu/src/flame_graph.rs:164-166 | processing traces one by one equals applying them all |
| FlameGraph.FlameGraphBuilder.Build | monitors/cpu/src/flame_graph.rs:157-181 | the data holds every queued trace, totals updated then pruned at 0.5 %; the root's total is the sample count; duration 0 |
| FlameGraph.CollectTraces | monitors/cpu/src/flame_graph.rs:158-162 | the traces of the threads in order, all non-empty |
| FlameGraph.FoldedIgnoresTotals | monitors/cpu/src/flame_graph.rs:221-243 | the folded export depends only on self samples |
| FlameGraph.TwoTracesTree | monitors/cpu/src/flame_graph.rs:184-203 | two traces sharing "main" build ROOT, main, then foo and bar |
| FlameGraph.FirstExampleTrace | monitors/cpu/src/flame_graph.rs:184-203 | the first example trace lays ROOT, main, foo |
| FlameGraph.SecondExampleTrace | monitors/cpu/src/flame_graph.rs:94-103 | the second trace reuses "main" and adds "bar" beside "foo" |
| FlameGraph.LeafFolded | monitors/cpu/src/flame_graph.rs:227-236 | a leaf with one sample exports "stack;name 1" |
| FlameGraph.ForkFolded | monitors/cpu/src/flame_graph.rs:227-243 | a node with two sampled leaves exports one line for each |
| FlameGraph.TwoTracesBuiltFolded | monitors/cpu/src/flame_graph.rs:221-243 | the example tree exports "ROOT;main;foo 1" and "ROOT;main;bar 1" |
| FlameGraph.SmallGraphFolded | monitors/cpu/src/flame_graph.rs:157-181 | for fewer than 200 samples, building leaves the folded export unchanged |
| FlameGraph.TwoTracesFolded | monitors/cpu/src/flame_graph.rs:157-181 | the built example graph exports exactly its two stacks |
| CpuThrottler.BreakerStep | monitors/cpu/src/cpu_throttler.rs:175-212 | a closed breaker opens only after usage above the threshold lasted longer than the duration, and a calm sample clears the high-usage mark; an open breaker never closes directly and half-opens only after the cooldown; a half-open breaker closes on low usage and reopens otherwise |
| CpuThrottler.BreakerStepWellFormed | monitors/cpu/src/cpu_throttler.rs:175-212 | an open breaker always has a trigger time, before and after every step |
| CpuThrottler.ShortBurstKeepsBreakerClosed | monitors/cpu/src/cpu_throttler.rs:175-195 | high usage shorter than the duration leaves the breaker closed, remembering when it started |
| CpuThrottler.OpensAfterSustainedHighUsage | monitors/cpu/src/cpu_throttler.rs:180-192 | with high usage the breaker opens exactly when the high-usage period exceeds the duration |
| CpuThrottler.OpenDuringCooldown | monitors/cpu/src/cpu_throttler.rs:196-203 | an open breaker stays exactly as it is throughout the cooldown |
| CpuThrottler.HalfOpenResolves | monitors/cpu/src/cpu_throttler.rs:204-211 | a half-open breaker closes below the threshold and reopens at or above it |
| CpuThrottler.IntervalFor | monitors/cpu/src/cpu_throttler.rs:84-98 | an open breaker waits 10 s; otherwise one of 10 s, 5 s, 2 s or the base interval, the base one at low usage |
| CpuThrottler.IntervalMonotone | monitors/cpu/src/cpu_throttler.rs:84-98 | higher usage never gives a shorter interval |
| CpuThrottler.AdaptiveIntervalsExample | monitors/cpu/src/cpu_throttler.rs:240-258 | the intervals the adaptive-interval test expects: 1 s, 2 s, 5 s and 10 s |
| CpuThrottler.InWindow | monitors/cpu/src/cpu_throttler.rs:120-136 | the window keeps exactly the usages recorded after the cutoff |
| CpuThrottler.AverageUsage | monitors/cpu/src/cpu_throttler.rs:120-136 | the current usage when the window is empty, otherwise the mean of the window |
| CpuThrottler.AverageWithinBounds | monitors/cpu/src/cpu_throttler.rs:120-136 | the average of a non-empty window lies between any bounds of its samples |
| CpuThrottler.AverageUsageExample | monitors/cpu/src/cpu_throttler.rs:275-286 | the samples 1, 2 and 3 average 2, strictly between 1.5 and 2.5 |
| CpuThrottler.SkipFor | monitors/cpu/src/cpu_throttler.rs:105-118 | skip iff the breaker is open or the 5 s average exceeds 1.5 × the limit |
| CpuThrottler.SustainedHighUsageSkipsByAverage | monitors/cpu/src/cpu_throttler.rs:261-272 | eleven samples at 6 % 100 ms apart leave the breaker closed, yet the update is skipped because of the average |
| CpuThrottler.DropOldest | monitors/cpu/src/cpu_throttler.rs:71-74 | the history keeps only its newest entries, up to the capacity |
| CpuThrottler.CircuitBreaker.constructor | monitors/cpu/src/cpu_throttler.rs:164-172 | a breaker starts closed with no marks |
| CpuThrottler.CircuitBreaker.Update | monitors/cpu/src/cpu_throttler.rs:175-212 | the breaker moves by one step of the state machine |
| CpuThrottler.CircuitBreaker.IsOpen | monitors/cpu/src/cpu_throttler.rs:214-216 | open iff in the Open state |
| CpuThrottler.CircuitBreaker.Reset | monitors/cpu/src/cpu_throttler.rs:218-222 | a reset breaker is closed with no marks |
| CpuThrottler.StateName | monitors/cpu/src/cpu_throttler.rs:138-147 | the state is reported as "Closed", "Open" or "HalfOpen" |
| CpuThrottler.StateNamesDistinct | monitors/cpu/src/cpu_throttler.rs:138-147 | different states have different names |
| CpuThrottler.Throttler.constructor | monitors/cpu/src/cpu_throttler.rs:52-62 | a new throttler has the given limit and base interval, no usage, an empty history and a closed breaker |
| CpuThrottler.Throttler.CalculateInterval | monitors/cpu/src/cpu_throttler.rs:84-98 | the interval for the breaker's state, the current usage and the limit |
| CpuThrottler.Throttler.UpdateUsage | monitors/cpu/src/cpu_throttler.rs:64-82 | the usage is recorded, the history keeps its newest 60 entries, the breaker takes a step and the interval is recomputed |
| CpuThrottler.Throttler.RefreshInterval | monitors/cpu/src/cpu_throttler.rs:100-103 | the current sampling interval |
| CpuThrottler.Throttler.AverageOver | monitors/cpu/src/cpu_throttler.rs:120-136 | the mean over the last given seconds of history |
| CpuThrottler.Throttler.ShouldSkipUpdate | monitors/cpu/src/cpu_throttler.rs:105-118 | the skip decision for the breaker, the history and the limit |
| CpuThrottler.Throttler.Stats | monitors/cpu/src/cpu_throttler.rs:138-148 | the stats report the usage, the 5 s and 60 s averages, the interval, the breaker state's name and the skip decision |
| CpuThrottler.Throttler.SetMaxCpu | monitors/cpu/src/cpu_throttler.rs:150-153 | the limit is clamped into 1..50 % and nothing else changes |
| CpuThrottler.Throttler.Reset | monitors/cpu/src/cpu_throttler.rs:155-161 | usage and history cleared, the base interval restored, the breaker closed; limit and base kept |
| ProcessLimiter.ErrnoError | monitors/cpu/src/process_limiter.rs:124-168 | EPERM is a permission error and ESRCH a missing process, exactly; any other errno is a system error naming it; never an invalid limit |
| ProcessLimiter.SetNiceValue | monitors/cpu/src/process_limiter.rs:124-144 | success iff `setpriority` succeeded, otherwise the errno's error |
| ProcessLimiter.GetNiceValue | monitors/cpu/src/process_limiter.rs:146-168 | the priority iff errno stayed 0, otherwise the errno's error |
| ProcessLimiter.NiceFromLimit | monitors/cpu/src/process_limiter.rs:170-179 | the nice value is one of 0, 5, 10, 15 and 19; it is 0 exactly from 75 % up and 19 exactly below 10 % |
| ProcessLimiter.NiceAntitone | monitors/cpu/src/process_limiter.rs:170-179 | a higher allowance never gives a higher nice value |
| ProcessLimiter.NiceExamples | monitors/cpu/src/process_limiter.rs:449-457 | the nice values the nice-calculation test expects |
| ProcessLimiter.Ceil | monitors/cpu/src/process_limiter.rs:181-185 | the ceiling: the least integer not below the value |
| ProcessLimiter.ToUsize | monitors/cpu/src/process_limiter.rs:181-185 | the cast to usize saturates negative values at 0 |
| ProcessLimiter.AllowedCores | monitors/cpu/src/process_limiter.rs:181-185 | between 1 and the core count: the fewest cores that cover the percentage of all cores |
| ProcessLimiter.AllowedCoresExamples | monitors/cpu/src/process_limiter.rs:460-467 | 8, 4, 2 and 1 of 8 cores for 100, 50, 25 and 10 % |
| ProcessLimiter.SetCpuAffinity | monitors/cpu/src/process_limiter.rs:187-193 | affinity is unsupported on macOS and always a system error |
| ProcessLimiter.AfterAffinity | monitors/cpu/src/process_limiter.rs:76-87 | because affinity always fails, the affinity step never changes the limit type |
| ProcessLimiter.PresetPercent | monitors/cpu/src/process_limiter.rs:273-281 | High, Medium, Low and Minimal are 75, 50, 25 and 10 %, all valid limits |
| ProcessLimiter.PresetNice | monitors/cpu/src/process_limiter.rs:170-179 | the presets get nice values 0, 5, 10 and 15 |
| ProcessLimiter.Limiter.constructor | monitors/cpu/src/process_limiter.rs:42-48 | no limits, cpulimit availability not yet known |
| ProcessLimiter.Limiter.CheckCpulimitAvailable | monitors/cpu/src/process_limiter.rs:219-233 | the first answer is whether cpulimit is on the path; later calls repeat the cached answer |
| ProcessLimiter.Limiter.LimitProcess | monitors/cpu/src/process_limiter.rs:50-101 | a percentage outside 1..100 is rejected; failing to read or set the nice value is an error and records nothing; on success the pid's limit holds the percentage, its nice value and the original nice, typed CpuLimit exactly when cpulimit is available and started |
| ProcessLimiter.Limiter.RemoveLimit | monitors/cpu/src/process_limiter.rs:104-122 | an unlimited pid is not found; otherwise its limit is removed, the original nice restored, and cpulimit stopped for CpuLimit or Combined limits once restoring succeeded |
| ProcessLimiter.Limiter.HasLimit | monitors/cpu/src/process_limiter.rs:268-270 | true iff the pid has a recorded limit |
| ProcessLimiter.Limiter.GetLimits | monitors/cpu/src/process_limiter.rs:263-266 | exactly the recorded limits |
| ProcessLimiter.Limiter.LimitToPreset | monitors/cpu/src/process_limiter.rs:273-282 | limiting to a preset is limiting to its percentage: on success the pid's limit holds that percentage, its nice value and the original nice, and the other limits are unchanged; a failure to read or set the nice value is its error and records nothing |
| ProcessDetails.BodyLines | monitors/cpu/src/process_details.rs:89-91 | the lines after the header of a successful run; nothing for a failed one |
| ProcessDetails.Arguments | monitors/cpu/src/process_details.rs:56-76 | a failed run gives no arguments; every argument is a non-empty word without spaces |
| ProcessDetails.ArgumentsRoundTrip | monitors/cpu/src/process_details.rs:56-76 | words joined by spaces split back into the same words |
| ProcessDetails.OwnerField | monitors/cpu/src/process_details.rs:176-200 | the trimmed output of a successful run, otherwise "unknown"; no surrounding spaces |
| ProcessDetails.Bindings | monitors/cpu/src/process_details.rs:91-95 | each line is split at its first '=' |
| ProcessDetails.EnvOfBinding | monitors/cpu/src/process_details.rs:79-100 | a variable is present iff some line binds it, and its value is that of the last such line |
| ProcessDetails.Environment | monitors/cpu/src/process_details.rs:79-100 | the loop builds exactly the map of the lines after the header |
| ProcessDetails.EnvironmentOfOneVariable | monitors/cpu/src/process_details.rs:79-100 | a header and one "key=value" line give exactly that variable |
| ProcessDetails.OpenFileName | monitors/cpu/src/process_details.rs:116-126 | a row names a file iff it has nine fields and type REG, DIR or PIPE; the name is fields 9 onward joined by spaces |
| ProcessDetails.OpenFiles | monitors/cpu/src/process_details.rs:103-140 | the names of the qualifying rows, sorted, deduplicated and cut to 50 |
| ProcessDetails.OpenFilesReported | monitors/cpu/src/process_details.rs:103-140 | at most 50 names, strictly increasing, each from some row; below the cap every named file is reported |
| ProcessDetails.ConnectionName | monitors/cpu/src/process_details.rs:156-166 | a row names a connection iff it has nine fields and its name mentions TCP or UDP |
| ProcessDetails.Connections | monitors/cpu/src/process_details.rs:143-173 | the qualifying names in order, cut to 20 |
| ProcessDetails.ConnectionsReported | monitors/cpu/src/process_details.rs:143-173 | the first min(20, all) connection names, each mentioning TCP or UDP |
| ProcessDetails.NewDetails | monitors/cpu/src/process_details.rs:19-31 | every field is filled from its command; an unreadable path becomes "" |
| ProcessMonitor.StatusName | monitors/cpu/src/process_monitor.rs:89 | the derived `Debug` text of a status: only an unknown status has a parenthesis, and its text is "Unknown(" + the decimal code + ")", from which the code reads back |
| ProcessMonitor.StatusNameInjective | monitors/cpu/src/process_monitor.rs:89 | distinct statuses are cached as distinct text, unknown codes included |
| ProcessMonitor.StatusNameExamples | monitors/cpu/src/process_monitor.rs:99 | "UninterruptibleDiskSleep", "Run", "Zombie", "Unknown(3)" and "Unknown(42)" as `{:?}` prints them |
| ProcessMonitor.FreshInfo | monitors/cpu/src/process_monitor.rs:91-103 | a new process gets its sampled name, parent, usage, status and run time, one thread and zero user and system time |
| ProcessMonitor.RefreshedInfo | monitors/cpu/src/process_monitor.rs:84-90 | a known process gets new usage, status and run time and keeps everything else |
| ProcessMonitor.RefreshStep | monitors/cpu/src/process_monitor.rs:78-106 | one loop step of the cache update: the pid's entry is refreshed or created, the others unchanged |
| ProcessMonitor.RetainSeen | monitors/cpu/src/process_monitor.rs:108-109 | after dropping unseen pids the cache is the reconciled cache |
| ProcessMonitor.ReconciledKeys | monitors/cpu/src/process_monitor.rs:75-110 | the cache holds exactly the sampled pids, each under its own pid |
| ProcessMonitor.ReconciledEntries | monitors/cpu/src/process_monitor.rs:75-110 | each entry has the sample's usage, status and run time; a known process keeps its name, parent and thread count; a new one starts with one thread |
| ProcessMonitor.ReconcileIdempotent | monitors/cpu/src/process_monitor.rs:75-110 | updating twice from the same sample changes nothing more |
| ProcessMonitor.NeedsFullRefresh | monitors/cpu/src/process_monitor.rs:55-57 | a full refresh every tenth cycle, or when more than 10 whole seconds passed since the last one |
| ProcessMonitor.StateOf | monitors/cpu/src/process_monitor.rs:131-144 | each flag is set exactly for its status; no context switches are counted |
| ProcessMonitor.StateFlagsExclusive | monitors/cpu/src/process_monitor.rs:131-144 | at most one of the four flags is set |
| ProcessMonitor.Monitor.constructor | monitors/cpu/src/process_monitor.rs:37-50 | an empty cache, counter 0, the first snapshot taken and the full-refresh time set |
| ProcessMonitor.Monitor.Refresh | monitors/cpu/src/process_monitor.rs:52-73 | the counter goes up by one; a full refresh happens as decided and resets the time; the cache is reconciled with the new sample |
| ProcessMonitor.Monitor.UpdateProcessCache | monitors/cpu/src/process_monitor.rs:75-110 | the cache becomes the reconciliation of the old cache with the sample |
| ProcessMonitor.Monitor.GetProcess | monitors/cpu/src/process_monitor.rs:119-121 | the cached entry, if the pid is cached |
| ProcessMonitor.Monitor.AllProcesses | monitors/cpu/src/process_monitor.rs:115-117 | exactly the cached entries |
| ProcessMonitor.Monitor.HighCpuProcesses | monitors/cpu/src/process_monitor.rs:123-129 | exactly the cached entries whose usage exceeds the threshold |
| ProcessMonitor.Monitor.AnalyzeProcessState | monitors/cpu/src/process_monitor.rs:131-144 | a state iff the pid is in the sample, namely the state of its status |
| ProcessMonitor.Monitor.UnkillableProcesses | monitors/cpu/src/process_monitor.rs:146-158 | exactly the cached entries whose sampled status is disk sleep or Zombie |
| ProcessTree.InitialNode | monitors/cpu/src/process_tree.rs:53-71 | a first-pass node has no children, no descendants and no threads; its totals equal its own usage and memory in MB; the path falls back to the name |
| ProcessTree.AllNodes | monitors/cpu/src/process_tree.rs:49-73 | one node for each listed pid, stored under its pid |
| ProcessTree.AllNodesInitial | monitors/cpu/src/process_tree.rs:58-73 | every stored node is the initial node of some listed process |
| ProcessTree.ChildrenOfParent | monitors/cpu/src/process_tree.rs:75-78 | a parent's child list holds the pids naming it as parent, in listing order |
| ProcessTree.RootPidsMember | monitors/cpu/src/process_tree.rs:79-81 | a pid is a root exactly when its process has no parent |
| ProcessTree.FirstPass | monitors/cpu/src/process_tree.rs:48-82 | the first pass builds the node map, the child lists and the root pids |
| ProcessTree.Attach | monitors/cpu/src/process_tree.rs:168-174 | children are the old ones plus the built ones, sorted by descending total CPU; the node itself is unchanged |
| ProcessTree.BuildSpec | monitors/cpu/src/process_tree.rs:139-178 | building keeps the node's own pid, usage and memory |
| ProcessTree.BuildList | monitors/cpu/src/process_tree.rs:153-171 | at most one built child per listed child pid |
| ProcessTree.Subtree | monitors/cpu/src/process_tree.rs:155-169 | a pid gives at most one subtree |
| ProcessTree.BuildNodeRecursive | monitors/cpu/src/process_tree.rs:139-178 | the recursive build yields the specified subtree |
| ProcessTree.AddChildren | monitors/cpu/src/process_tree.rs:152-174 | adding the children builds them all and attaches them sorted |
| ProcessTree.BuildPresent | monitors/cpu/src/process_tree.rs:155-168 | a present child pid builds to exactly one subtree |
| ProcessTree.BuildChildren | monitors/cpu/src/process_tree.rs:153-171 | the loop builds the listed children and adds their totals, memory and 1 + descendants to the node's |
| ProcessTree.InitialConsistent | monitors/cpu/src/process_tree.rs:58-71 | a first-pass node is consistent: its totals are its own values |
| ProcessTree.AttachConsistent | monitors/cpu/src/process_tree.rs:163-174 | attaching consistent children keeps the node consistent |
| ProcessTree.BuildConsistent | monitors/cpu/src/process_tree.rs:139-178 | every built node's totals are its own values plus its children's totals, and its descendant count is the children plus their descendants |
| ProcessTree.BuildListConsistent | monitors/cpu/src/process_tree.rs:153-171 | every built child is consistent |
| ProcessTree.BuildListPids | monitors/cpu/src/process_tree.rs:153-170 | the built children are the listed child pids that exist, in order |
| ProcessTree.ChildrenAreListedChildren | monitors/cpu/src/process_tree.rs:139-178 | a fresh node's children are exactly its existing listed children |
| ProcessTree.CycleGuard | monitors/cpu/src/process_tree.rs:146-149 | a pid already on the path is returned as it is, so cycles end |
| ProcessTree.PreNode | monitors/cpu/src/process_tree.rs:185-195 | the pre-order listing of a subtree starts with its root |
| ProcessTree.TotalsAreSubtreeSums | monitors/cpu/src/process_tree.rs:163-166 | a consistent node's total CPU and memory are the sums over its subtree, and its descendant count is the subtree's size minus one |
| ProcessTree.FindParent | monitors/cpu/src/process_tree.rs:104-115 | the loop finds whether the pid's process names a parent present in the map |
| ProcessTree.OrphanPidsMember | monitors/cpu/src/process_tree.rs:101-128 | a pid is adopted as an orphan root exactly when it is not a root and has no parent in the map |
| ProcessTree.TreeOf | monitors/cpu/src/process_tree.rs:40-137 | the roots are the root and orphan subtrees, sorted by descending total CPU |
| ProcessTree.RootsExactly | monitors/cpu/src/process_tree.rs:76-128 | a process starts a top-level subtree exactly when it has no parent or its parent is not listed |
| ProcessTree.BuildAllConsistent | monitors/cpu/src/process_tree.rs:87-99 | every built root is consistent |
| ProcessTree.AllNodesConsistent | monitors/cpu/src/process_tree.rs:48-82 | every first-pass node is consistent |
| ProcessTree.TreeConsistent | monitors/cpu/src/process_tree.rs:40-137 | every root of the built tree is consistent, so the aggregated metrics hold throughout |
| ProcessTree.TotalProcessesCounts | monitors/cpu/src/process_tree.rs:133-136 | the tree counts every process once |
| ProcessTree.AllNodesSize | monitors/cpu/src/process_tree.rs:49-73 | distinct pids give as many nodes as processes |
| ProcessTree.TreeBuilder.constructor | monitors/cpu/src/process_tree.rs:34-38 | the builder starts from a process snapshot |
| ProcessTree.TreeBuilder.BuildTree | monitors/cpu/src/process_tree.rs:40-137 | a refreshed snapshot is taken and the tree of that snapshot returned |
| ProcessTree.TreeBuilder.FindProcessFamily | monitors/cpu/src/process_tree.rs:180-183 | the subtree of the target in the freshly built tree, if present |
| ProcessTree.BuildRoots | monitors/cpu/src/process_tree.rs:87-99 | the loop builds one subtree per root pid present |
| ProcessTree.IsOrphan | monitors/cpu/src/process_tree.rs:103-117 | orphan iff not a root and no parent in the map |
| ProcessTree.BuildOrphans | monitors/cpu/src/process_tree.rs:101-128 | the orphan subtrees are appended after the roots, in listing order |
| ProcessTree.FirstWith | monitors/cpu/src/process_tree.rs:185-195 | the first node with the target pid; none iff no node has it |
| ProcessTree.FindIsFirstInPreOrder | monitors/cpu/src/process_tree.rs:185-195 | the search returns the first match in pre-order |
| ProcessTree.FindNodeIsFirst | monitors/cpu/src/process_tree.rs:185-195 | within one subtree the search returns its first pre-order match |
| CpuAnalyzer.MetricsOf | monitors/cpu/src/cpu_analyzer.rs:80-94 | the metrics carry the global usage, the per-core usages, the load averages and the frequency; the temperature is never known |
| CpuAnalyzer.PushedKeepsNewest | monitors/cpu/src/cpu_analyzer.rs:71-75 | a refresh appends the new metrics and keeps at most the newest 60 |
| CpuAnalyzer.HistoryIsNewestSixty | monitors/cpu/src/cpu_analyzer.rs:71-75 | after any run of refreshes the history is the newest 60 metrics |
| CpuAnalyzer.Recent | monitors/cpu/src/cpu_analyzer.rs:140-144 | the recent window is the last min(5, n) samples |
| CpuAnalyzer.Older | monitors/cpu/src/cpu_analyzer.rs:146-151 | the older window is the up to 5 samples before those |
| CpuAnalyzer.CheckedSub | monitors/cpu/src/cpu_analyzer.rs:151 | unsigned subtraction succeeds only when it does not underflow, with the exact difference |
| CpuAnalyzer.TrendAsWrittenOverflows | monitors/cpu/src/cpu_analyzer.rs:151 | with 2 to 4 samples `history.len() - 5` underflows |
| CpuAnalyzer.CpuTrend | monitors/cpu/src/cpu_analyzer.rs:135-154 | no trend below 2 samples; otherwise the recent average minus the older average |
| CpuAnalyzer.TrendAgreesWithoutOverflow | monitors/cpu/src/cpu_analyzer.rs:135-154 | outside 2..4 samples the code as written and the corrected trend agree |
| CpuAnalyzer.AverageOfConstant | monitors/cpu/src/cpu_analyzer.rs:140-151 | the average of equal usages is that usage |
| CpuAnalyzer.SteadyLoadHasNoTrend | monitors/cpu/src/cpu_analyzer.rs:135-154 | a steady load shows a zero trend |
| CpuAnalyzer.RisingLoadHasPositiveTrend | monitors/cpu/src/cpu_analyzer.rs:135-154 | when the last five samples are above a level all earlier ones stay below, the trend is positive |
| CpuAnalyzer.DetectBottlenecks | monitors/cpu/src/cpu_analyzer.rs:96-133 | at most three findings, in the order CPU, load, memory, none naming processes |
| CpuAnalyzer.BottleneckThresholds | monitors/cpu/src/cpu_analyzer.rs:96-133 | high CPU iff usage exceeds 90 %; excessive switching iff the one-minute load exceeds twice the core count; memory pressure iff memory use exceeds 90 %; never I/O wait or thermal |
| CpuAnalyzer.MemoryThreshold | monitors/cpu/src/cpu_analyzer.rs:122-123 | memory use above 90 % means 10 × used > 9 × total |
| CpuAnalyzer.SeverityAboveThreshold | monitors/cpu/src/cpu_analyzer.rs:103 | each finding's severity exceeds its threshold: 0.9 for CPU and memory, 2/3 for load |
| CpuAnalyzer.Analyzer.constructor | monitors/cpu/src/cpu_analyzer.rs:46-58 | an empty history and a first reading |
| CpuAnalyzer.Analyzer.Refresh | monitors/cpu/src/cpu_analyzer.rs:60-78 | within 500 ms of the last update nothing changes; otherwise the reading is taken, its metrics pushed onto the newest-60 history and the time updated |
| CpuAnalyzer.Analyzer.CurrentMetrics | monitors/cpu/src/cpu_analyzer.rs:80-94 | the metrics of the current reading |
| CpuAnalyzer.Analyzer.Trend | monitors/cpu/src/cpu_analyzer.rs:135-154 | the trend of the history, corrected for the underflow |
| CpuHistory.JoinPath | monitors/cpu/src/cpu_history.rs:37-39 | joining a name onto a directory gives a path ending in that name |
| CpuHistory.JoinTwice | monitors/cpu/src/cpu_history.rs:37-39 | joining two components gives a path ending in "a/b" |
| CpuHistory.DefaultConfig | monitors/cpu/src/cpu_history.rs:35-49 | the data directory ends in ".reaper/cpu_history"; 1440 points in memory, a flush every 300 s |
| CpuHistory.FileNameRoundTrip | monitors/cpu/src/cpu_history.rs:282-290 | a file name is recognised with date d exactly when it is the file name written for d |
| CpuHistory.LoadSkipsBadLines | monitors/cpu/src/cpu_history.rs:321-338 | loading a file keeps exactly the lines that parse as points |
| CpuHistory.ReadBack | monitors/cpu/src/cpu_history.rs:236-239 | every written point reads back as itself, in order |
| CpuHistory.LoadAfterFlush | monitors/cpu/src/cpu_history.rs:230-239 | appending points to a file and loading it gives the old contents followed by those points |
| CpuHistory.FirstWithTime | monitors/cpu/src/cpu_history.rs:178-179 | the first point with a timestamp, or none iff no point has it |
| CpuHistory.InsertByTime | monitors/cpu/src/cpu_history.rs:178 | inserting keeps all points and keeps a time-ordered sequence ordered |
| CpuHistory.SortByTime | monitors/cpu/src/cpu_history.rs:178 | the stable sort is ordered by timestamp and a permutation of its input |
| CpuHistory.SortKeepsFirst | monitors/cpu/src/cpu_history.rs:178 | the stable sort keeps the first point of each timestamp first |
| CpuHistory.DedupByTime | monitors/cpu/src/cpu_history.rs:179 | deduplication keeps a subset of the points and the first one |
| CpuHistory.DedupKeepsFirst | monitors/cpu/src/cpu_history.rs:179 | for each timestamp the first point survives deduplication |
| CpuHistory.DedupStrictlyIncreasing | monitors/cpu/src/cpu_history.rs:179 | deduplicating a time-ordered sequence leaves strictly increasing timestamps |
| Sorting.SortDescStable | monitors/disk/src/file_analyzer.rs:96 | `sort_by` is stable: for every key value, the elements with that key appear in the output in their input order |
| CpuHistory.SortDedupSpec | monitors/cpu/src/cpu_history.rs:178-179 | sorting then deduplicating gives strictly increasing timestamps, each with its first point in the input |
| CpuHistory.WithinMembers | monitors/cpu/src/cpu_history.rs:156-160 | the range filter keeps exactly the points between start and end, inclusive |
| CpuHistory.FilePointsInRange | monitors/cpu/src/cpu_history.rs:166-175 | every point read from the files lies in the range |
| CpuHistory.RangeQuery | monitors/cpu/src/cpu_history.rs:143-182 | the result has strictly increasing timestamps, all in range, and every in-range buffered point's timestamp is answered by the first buffered point with it |
| CpuHistory.UsageSummary | monitors/cpu/src/cpu_history.rs:191-199 | the loop computes the sum, the maximum and the minimum usage |
| CpuHistory.RecentPointsExactly | monitors/cpu/src/cpu_history.rs:130-141 | a point is recent iff it is buffered and not older than now minus the duration, saturating |
| CpuHistory.Fill | monitors/cpu/src/cpu_history.rs:306-316 | loading fills the buffer up to the cap and keeps what was there first |
| CpuHistory.FillTwice | monitors/cpu/src/cpu_history.rs:306-316 | filling from two files in turn equals filling from both at once |
| CpuHistory.Store.FilePathForDate | monitors/cpu/src/cpu_history.rs:340-343 | the file for a date ends in its "cpu_history_<date>.jsonl" name |
| CpuHistory.Store.constructor | monitors/cpu/src/cpu_history.rs:63-87 | a new store has the configuration, today's date and the flush time; its index holds the listed history files, minus those before the cleanup cutoff when cleanup is enabled; its buffer holds the points of the two latest discovered dates, up to the cap; with cleanup the expired files are deleted, otherwise the files are untouched |
| CpuHistory.Store.AddDataPoint | monitors/cpu/src/cpu_history.rs:89-128 | the point is appended and the buffer keeps its newest points up to the cap; before the flush interval nothing is written; after it today's file is indexed and gains the buffer, and every other file and index entry is unchanged |
| CpuHistory.Store.GetRecentData | monitors/cpu/src/cpu_history.rs:130-141 | the buffered points not older than the cutoff, in buffer order |
| CpuHistory.Store.GetHistoricalData | monitors/cpu/src/cpu_history.rs:143-182 | the buffered and file points in range, sorted and deduplicated by timestamp |
| CpuHistory.Store.GatherFiles | monitors/cpu/src/cpu_history.rs:166-175 | the loop gathers the in-range points of the files whose dates are in range |
| CpuHistory.Store.GatherEntry | monitors/cpu/src/cpu_history.rs:167-174 | one file contributes its in-range points when its date is in range |
| CpuHistory.Store.GetStatistics | monitors/cpu/src/cpu_history.rs:184-216 | no recent points give the default statistics; otherwise the count, averages, extremes and the last load average of the recent points |
| CpuHistory.Store.Gather | monitors/cpu/src/cpu_history.rs:156-160 | the loop appends exactly the points whose time lies in range, in order |
| CpuHistory.Store.AppendLines | monitors/cpu/src/cpu_history.rs:236-239 | the loop writes one line per buffered point after the existing lines |
| CpuHistory.Store.FlushToDisk | monitors/cpu/src/cpu_history.rs:218-245 | today's file is indexed and gains the whole buffer; the flush time and day are updated |
| CpuHistory.Store.IndexFile | monitors/cpu/src/cpu_history.rs:227 | the date now maps to the path; other dates are unchanged |
| CpuHistory.Store.CleanupOldFiles | monitors/cpu/src/cpu_history.rs:247-271 | dates before the cutoff leave the index and their files are removed; the rest stays |
| CpuHistory.Store.DeleteExpired | monitors/cpu/src/cpu_history.rs:256-264 | the dates to forget are exactly those before the cutoff, and their files are deleted |
| CpuHistory.Store.ForgetDates | monitors/cpu/src/cpu_history.rs:266-268 | forgetting the expired dates removes exactly those from the index |
| CpuHistory.Store.DiscoverExistingFiles | monitors/cpu/src/cpu_history.rs:273-296 | every listed "cpu_history_<date>.jsonl" file is indexed under its date, the index becoming `Discover` of the listing; a missing directory changes nothing |
| CpuHistory.Discover | monitors/cpu/src/cpu_history.rs:273-296 | the index built from the listed names stays in date order |
| CpuHistory.DiscoverLookup | monitors/cpu/src/cpu_history.rs:273-296 | a date is indexed under its history file path exactly when that file name is listed; other dates keep their old entry |
| CpuHistory.Found | monitors/cpu/src/cpu_history.rs:63-87 | the index a new store discovers stays in date order |
| CpuHistory.Store.LoadRecentData | monitors/cpu/src/cpu_history.rs:298-319 | the buffer is filled from the files of the two latest dates, oldest first, up to the cap |
| CpuHistory.Store.FillFrom | monitors/cpu/src/cpu_history.rs:309-314 | the loop pushes points until the cap |
| CpuHistory.Store.LoadDataFromFile | monitors/cpu/src/cpu_history.rs:321-338 | the points that parse, in file order; nothing for a missing file |
| CpuHistory.PointOf | monitors/cpu/src/cpu_history.rs:90-107 | a point carries the time and the usage of the metrics and no processes |
| Calendar.YearOf | monitors/cpu/src/cpu_history.rs:353-358 | the year containing a day number since 1970-01-01 |
| Calendar.YearUnique | monitors/cpu/src/cpu_history.rs:353-358 | a day belongs to only one year |
| Calendar.MonthOf | monitors/cpu/src/cpu_history.rs:353-358 | the month containing a day of the year |
| Calendar.MonthUnique | monitors/cpu/src/cpu_history.rs:353-358 | a day of the year belongs to only one month |
| Calendar.DateOfDay | monitors/cpu/src/cpu_history.rs:355-357 | the proleptic Gregorian date of a day number is valid and has that day number |
| Calendar.DayNumberInjective | monitors/cpu/src/cpu_history.rs:355-357 | distinct valid dates have distinct day numbers |
| Calendar.DateOfDayNumber | monitors/cpu/src/cpu_history.rs:355-357 | a valid date's day number converts back to that date |
| Calendar.FormatDate | monitors/cpu/src/cpu_history.rs:358 | "%Y-%m-%d" of a four-digit year is ten characters with dashes at positions 4 and 7 |
| Calendar.DateString | monitors/cpu/src/cpu_history.rs:353-359 | the date of the timestamp's whole days since the epoch; ten characters up to year 9999 |
| Calendar.FourDigitYears | monitors/cpu/src/cpu_history.rs:353-359 | the day numbers with four-digit years are exactly those up to 9999-12-31 |
| Calendar.NewYear2022 | monitors/cpu/src/cpu_history.rs:412-422 | timestamp 1640995200 is "2022-01-01", as the date-conversion test expects |
| Calendar.BeforeIsEarlier | monitors/cpu/src/cpu_history.rs:353-359 | a date is before another iff its day number is smaller |
| Calendar.FormatOrder | monitors/cpu/src/cpu_history.rs:358 | formatted dates compare as strings exactly as the dates compare |
| Calendar.DateStringOrder | monitors/cpu/src/cpu_history.rs:167 | date strings compare as strings exactly as their days compare, which the range and cleanup comparisons rely on |
| ThermalMonitor.Severity | monitors/cpu/src/thermal_monitor.rs:456-466 | levels are ranked 0 to 4, and only NotThrottled ranks 0 |
| ThermalMonitor.LevelForRatio | monitors/cpu/src/thermal_monitor.rs:456-466 | Critical below 0.5, Heavy below 0.7, Moderate below 0.85, Light below 0.95, otherwise not throttled, each exactly on its band |
| ThermalMonitor.LevelMonotone | monitors/cpu/src/thermal_monitor.rs:456-466 | a lower frequency ratio never gives a milder level |
| ThermalMonitor.FrequencyLevelThrottled | monitors/cpu/src/thermal_monitor.rs:452-466 | throttling is detected iff the baseline is positive and the frequency is below 95 % of it |
| ThermalMonitor.FrequencyLevelExamples | monitors/cpu/src/thermal_monitor.rs:452-466 | 2.4 of 3.2 GHz is Moderate, 1.6 Heavy, 1.5 Critical; a zero baseline is never throttled |
| ThermalMonitor.CurrentFrequency | monitors/cpu/src/thermal_monitor.rs:498-514 | a failed spawn is an error; an unsuccessful run gives no frequency; unparsable output is invalid data; otherwise the u64 value |
| ThermalMonitor.HotSensors | monitors/cpu/src/thermal_monitor.rs:469-472 | exactly the valid sensors above the threshold |
| ThermalMonitor.HottestIndex | monitors/cpu/src/thermal_monitor.rs:475-478 | the hottest sensor, the last of equally hot ones as `max_by` returns |
| ThermalMonitor.DetectedEvent | monitors/cpu/src/thermal_monitor.rs:449-496 | an event iff both frequencies are known, the level is not NotThrottled and some sensor is hot; it names the hottest sensor, the level, both frequencies and the time |
| ThermalMonitor.DetectionExample | monitors/cpu/src/thermal_monitor.rs:449-496 | a 92 °C die at 2.4 of 3.2 GHz records a Moderate event on "CPU Die" |
| ThermalMonitor.Warmed | monitors/cpu/src/thermal_monitor.rs:434-443 | invalid sensors are untouched; a valid one moves by the variation, clamped to 20..120 °C, and its maximum covers it |
| ThermalMonitor.WarmAll | monitors/cpu/src/thermal_monitor.rs:431-447 | each sensor is warmed by its own variation |
| ThermalMonitor.WarmAllMaxCovers | monitors/cpu/src/thermal_monitor.rs:431-447 | after warming every sensor's maximum is still at least its current reading |
| ThermalMonitor.Newer | monitors/cpu/src/thermal_monitor.rs:533-534 | the retained readings are exactly those newer than the cutoff |
| ThermalMonitor.RecordAllUntouched | monitors/cpu/src/thermal_monitor.rs:521-537 | a name with no valid sensor keeps its history |
| ThermalMonitor.RecordAllKeeps | monitors/cpu/src/thermal_monitor.rs:521-537 | a reading within the hour is kept |
| ThermalMonitor.RecordAllWindow | monitors/cpu/src/thermal_monitor.rs:521-537 | each valid sensor's current reading is recorded and its history holds only the last hour |
| ThermalMonitor.TrimKeepsNewest | monitors/cpu/src/thermal_monitor.rs:539-544 | trimming keeps the newest events, at most the maximum, in order |
| ThermalMonitor.CountRecent | monitors/cpu/src/thermal_monitor.rs:546-553 | the count of recent events is at most the number of events |
| ThermalMonitor.CountRecentMonotone | monitors/cpu/src/thermal_monitor.rs:546-553 | a longer window never counts fewer events |
| ThermalMonitor.CountRecentAll | monitors/cpu/src/thermal_monitor.rs:546-553 | when every event is recent, all are counted |
| ThermalMonitor.IsThrottlingActive | monitors/cpu/src/thermal_monitor.rs:221-232 | active iff the last event is less than 30 s old; an event in the future reads as 60 s old |
| ThermalMonitor.TemperaturesWhere | monitors/cpu/src/thermal_monitor.rs:207-211 | exactly the temperatures of the sensors selected |
| ThermalMonitor.MaxOf | monitors/cpu/src/thermal_monitor.rs:250 | the fold from minus infinity is the largest temperature |
| ThermalMonitor.MinOf | monitors/cpu/src/thermal_monitor.rs:251 | the fold from plus infinity is the smallest temperature |
| ThermalMonitor.Mean | monitors/cpu/src/thermal_monitor.rs:249 | the mean lies between the minimum and the maximum |
| ThermalMonitor.HottestTemperature | monitors/cpu/src/thermal_monitor.rs:190-198 | none iff no sensor is valid; otherwise a valid sensor's reading not exceeded by any other valid sensor |
| ThermalMonitor.FirstPackageTemperature | monitors/cpu/src/thermal_monitor.rs:201-204 | the reading of the first valid CPU package sensor |
| ThermalMonitor.CpuTemperature | monitors/cpu/src/thermal_monitor.rs:200-219 | the first valid package reading, else the mean of the valid core readings, else none |
| ThermalMonitor.Statistics | monitors/cpu/src/thermal_monitor.rs:234-262 | defaults when no sensor is valid; otherwise the count, the maximum, the minimum (a valid reading no other exceeds from below), the mean of the valid readings, the CPU temperature, the events of the last hour and whether throttling is active |
| ThermalMonitor.SmcDecode | monitors/cpu/src/thermal_monitor.rs:373-386 | four or more bytes decode as the 8.8 fixed-point value of the first two bytes |
| ThermalMonitor.FixedPoint | monitors/cpu/src/thermal_monitor.rs:381-382 | the raw big-endian 16-bit value over 256 |
| ThermalMonitor.RawValue | monitors/cpu/src/thermal_monitor.rs:381 | shifting the high byte and or-ing the low byte gives 256 × high + low |
| ThermalMonitor.SmcDecodeRange | monitors/cpu/src/thermal_monitor.rs:377-386 | decoded values lie in 0..256 and are valid readings iff the high byte is below 150 |
| ThermalMonitor.SmcSensor | monitors/cpu/src/thermal_monitor.rs:319-334 | a key becomes a sensor iff it has a valid reading and its name is not blacklisted |
| ThermalMonitor.SmcSensorsKept | monitors/cpu/src/thermal_monitor.rs:303-338 | every sensor kept is valid, not blacklisted, starts at its maximum and comes from its key |
| ThermalMonitor.SmcSensorsComplete | monitors/cpu/src/thermal_monitor.rs:303-338 | every key with a valid, not blacklisted reading yields its sensor |
| ThermalMonitor.ReadSmcSensors | monitors/cpu/src/thermal_monitor.rs:303-338 | the loop over the eleven keys keeps exactly the qualifying sensors |
| ThermalMonitor.FallbackSensor | monitors/cpu/src/thermal_monitor.rs:394-407 | the sysctl sensor is a CPU package sensor at the reading, valid iff 0 < t < 150 |
| ThermalMonitor.DiscoveredSensors | monitors/cpu/src/thermal_monitor.rs:264-301 | every discovered sensor's maximum covers its reading |
| ThermalMonitor.AllSmcSensors | monitors/cpu/src/thermal_monitor.rs:285-290 | the sensors of all services are valid, not blacklisted and at their maxima |
| ThermalMonitor.Monitor.New | monitors/cpu/src/thermal_monitor.rs:143-157 | a discovery error or a frequency error fails construction; otherwise the discovered sensors, the baseline frequency and empty histories |
| ThermalMonitor.Monitor.UpdateSensorTemperatures | monitors/cpu/src/thermal_monitor.rs:431-447 | each sensor is warmed by its variation; nothing else changes |
| ThermalMonitor.Monitor.DetectThermalThrottling | monitors/cpu/src/thermal_monitor.rs:449-496 | a frequency error is passed on; otherwise the detected event, if any, is appended |
| ThermalMonitor.Monitor.UpdateTemperatureHistory | monitors/cpu/src/thermal_monitor.rs:521-537 | every valid sensor's reading is recorded within the one-hour window |
| ThermalMonitor.Monitor.TrimHistory | monitors/cpu/src/thermal_monitor.rs:539-544 | the event history keeps its newest entries up to the maximum |
| ThermalMonitor.Monitor.Update | monitors/cpu/src/thermal_monitor.rs:159-180 | before the polling interval nothing changes; otherwise sensors are warmed, a frequency error aborts, and otherwise the event is appended and trimmed, the history recorded and the time updated |
| ThermalMonitor.Monitor.NewEvents | monitors/cpu/src/thermal_monitor.rs:168-170 | one update adds at most one event |
| HardwareMonitor.Rank | monitors/hardware/src/hardware_monitor.rs:20-29 | the derived ordering ranks the six sensor types 0 to 6 in declaration order |
| HardwareMonitor.RankInjective | monitors/hardware/src/hardware_monitor.rs:20-29 | distinct sensor types have distinct ranks |
| HardwareMonitor.Classify | monitors/hardware/src/hardware_monitor.rs:120-127 | a label never classifies as a package; CPU iff the lower-cased label contains "cpu"; Other iff it contains none of the seven keywords |
| HardwareMonitor.ClassifyCpuBeforeGpu | monitors/hardware/src/hardware_monitor.rs:120-127 | "cpu" is matched before "gpu" |
| HardwareMonitor.ClassifyMemoryAndStorage | monitors/hardware/src/hardware_monitor.rs:120-127 | "RAM" is memory and "SSD" storage |
| HardwareMonitor.ClassifyUnknown | monitors/hardware/src/hardware_monitor.rs:120-127 | a label with no keyword is Other |
| HardwareMonitor.SpellPrefixes | monitors/hardware/src/hardware_monitor.rs:164-168 | a name without any of the five SMC prefixes is left alone |
| HardwareMonitor.CleanSensorName | monitors/hardware/src/hardware_monitor.rs:162-172 | a cleaned name contains no underscore |
| HardwareMonitor.ReplaceRemovesChar | monitors/hardware/src/hardware_monitor.rs:163 | replacing a character by text without it removes every occurrence |
| HardwareMonitor.ReplaceKeepsAbsent | monitors/hardware/src/hardware_monitor.rs:164-168 | a replacement never introduces a character absent from both the text and the replacement |
| HardwareMonitor.TrimKeepsAbsent | monitors/hardware/src/hardware_monitor.rs:169 | trimming never introduces a character |
| HardwareMonitor.CleanCoreName | monitors/hardware/src/hardware_monitor.rs:162-172 | "TC0P" is shown as "Core0P" |
| HardwareMonitor.CleanBatteryName | monitors/hardware/src/hardware_monitor.rs:162-172 | "TB_1" is shown as "Battery 1" |
| HardwareMonitor.CleanPaddedName | monitors/hardware/src/hardware_monitor.rs:162-172 | "_GPU_" is shown as "GPU" |
| HardwareMonitor.SensorOf | monitors/hardware/src/hardware_monitor.rs:111-136 | a component is reported iff its reading lies in (0, 150], with its cleaned name, its type and critical iff above 85 °C |
| HardwareMonitor.LevelTemperature | monitors/hardware/src/hardware_monitor.rs:213-221 | thermal levels map to 45, 55, 65, 75 and 85 °C by bands of twenty, anything else to 95 °C |
| HardwareMonitor.LevelTemperatureMonotone | monitors/hardware/src/hardware_monitor.rs:213-221 | a higher level never gives a lower temperature, and only levels above 80 reach 85 °C |
| HardwareMonitor.FallbackTemperature | monitors/hardware/src/hardware_monitor.rs:201-226 | a reading iff sysctl ran and printed an i32; it is in range and at least 45 °C |
| HardwareMonitor.DisplayKeyOrder | monitors/hardware/src/hardware_monitor.rs:151-157 | sorted sensors come by type, and hotter first within a type |
| HardwareMonitor.UnsortedSensorsInRange | monitors/hardware/src/hardware_monitor.rs:107-149 | every collected sensor is in range and critical iff above 85 °C |
| HardwareMonitor.CollectedSensorsProperties | monitors/hardware/src/hardware_monitor.rs:107-160 | the result is a permutation of the collected sensors, all in range, in display order |
| HardwareMonitor.ComponentReported | monitors/hardware/src/hardware_monitor.rs:111-136 | every component with a valid reading appears in the result |
| HardwareMonitor.CollectTemperatures | monitors/hardware/src/hardware_monitor.rs:107-160 | the loop and the sort produce the collected sensors |
| HardwareMonitor.MaxCpuTemperature | monitors/hardware/src/hardware_monitor.rs:186-191 | the hottest CPU reading, or 0 when there is none |
| HardwareMonitor.StateFor | monitors/hardware/src/hardware_monitor.rs:193-198 | Throttling from 85 °C, Hot from 75, Warm from 60, otherwise Normal, each exactly on its band |
| HardwareMonitor.StateMonotone | monitors/hardware/src/hardware_monitor.rs:193-198 | a hotter CPU never gives a milder state |
| HardwareMonitor.ThermalStateFromCpuSensors | monitors/hardware/src/hardware_monitor.rs:184-199 | Throttling iff some CPU sensor reads at least 85 °C; Normal iff all CPU sensors are below 60 °C, in particular when there is none |
| HardwareMonitor.Icon | monitors/hardware/src/hardware_monitor.rs:237-246 | the icon is "cpu" exactly for the two CPU types |
| HardwareMonitor.DisplayNameInjective | monitors/hardware/src/hardware_monitor.rs:248-258 | distinct types have distinct display names |
| HardwareMonitor.Color | monitors/hardware/src/hardware_monitor.rs:262-269 | green, yellow, orange, red by increasing state |
| HardwareMonitor.Description | monitors/hardware/src/hardware_monitor.rs:271-278 | the state's own name |
| HardwareMonitor.FreshMetrics | monitors/hardware/src/hardware_monitor.rs:68-99 | the collected sensors, the first CPU's frequency or 0, the state from those sensors and no power metrics |
| HardwareMonitor.Monitor.constructor | monitors/hardware/src/hardware_monitor.rs:55-66 | no cached metrics |
| HardwareMonitor.Monitor.GetMetrics | monitors/hardware/src/hardware_monitor.rs:68-105 | a cache younger than two seconds is returned unchanged; otherwise fresh metrics are cached with the time |
| HardwareMonitor.CachedWithinTwoSeconds | monitors/hardware/src/hardware_monitor.rs:68-105 | two reads less than two seconds apart return the same metrics |
| MemoryMonitor.FromUsagePercent | monitors/memory/src/memory_monitor.rs:29-36 | Low below 50 %, Normal below 75 %, High below 90 %, otherwise Critical, each exactly on its band |
| MemoryMonitor.PressureMonotone | monitors/memory/src/memory_monitor.rs:29-36 | more usage never gives a lower pressure |
| MemoryMonitor.PressureName | monitors/memory/src/memory_monitor.rs:38-45 | each level is shown by its own name |
| MemoryMonitor.PressureNameInjective | monitors/memory/src/memory_monitor.rs:38-45 | distinct levels have distinct names |
| MemoryMonitor.Percent | monitors/memory/src/memory_monitor.rs:126-130 | 0 for an empty whole; otherwise the percentage, within 0..100 for a part of the whole and 100 for the whole |
| MemoryMonitor.PercentScaled | monitors/memory/src/memory_monitor.rs:111-130 | converting both sides from KiB to bytes leaves the percentage unchanged |
| MemoryMonitor.GetMemoryInfo | monitors/memory/src/memory_monitor.rs:111-152 | every byte count (total, used, available, free, swap total, swap used, swap free) is its KiB counter times 1024, cached and buffer are 0, both usages are percentages and the pressure follows the usage |
| MemoryMonitor.MemoryInfoUsage | monitors/memory/src/memory_monitor.rs:111-152 | an empty machine reads 0 % and Low; usage lies within 0..100; a full machine is Critical |
| MemoryMonitor.GrowthRate | monitors/memory/src/memory_monitor.rs:200-233 | no trend under ten samples or without history; otherwise 60 times the slope, growing iff above 0.1 MB/min |
| MemoryMonitor.MemoryInfoOf | monitors/memory/src/memory_monitor.rs:158-181 | a process's pid, name, byte sizes, share of total memory and growth |
| MemoryMonitor.TopByMemorySorted | monitors/memory/src/memory_monitor.rs:186-191 | at most the limit, largest first, drawn from the processes |
| MemoryMonitor.TopByMemoryDominates | monitors/memory/src/memory_monitor.rs:186-191 | every process kept uses at least as much as every process dropped |
| MemoryMonitor.Samples | monitors/memory/src/memory_monitor.rs:86-88 | one sample per process |
| MemoryMonitor.SamplesAt | monitors/memory/src/memory_monitor.rs:86-88 | each sample is the process's pid and resident size |
| MemoryMonitor.UpdatedHistoryBounded | monitors/memory/src/memory_monitor.rs:84-109 | the history covers exactly the live pids and no history exceeds 60 samples |
| MemoryMonitor.UpdatedHistoryPushes | monitors/memory/src/memory_monitor.rs:91-100 | each live process's sample is appended to its prior history, dropping the oldest beyond 60 |
| MemoryMonitor.Monitor.constructor | monitors/memory/src/memory_monitor.rs:66-75 | the snapshot with an empty history |
| MemoryMonitor.Monitor.Refresh | monitors/memory/src/memory_monitor.rs:77-82 | the new snapshot, the history updated from its processes and the time |
| MemoryMonitor.Monitor.UpdateMemoryHistory | monitors/memory/src/memory_monitor.rs:84-109 | the history is updated from the current processes and stays bounded |
| MemoryMonitor.Monitor.MemoryPressure | monitors/memory/src/memory_monitor.rs:235-238 | Low on an empty machine; otherwise the level for the usage |
| MemoryMonitor.Monitor.ProcessMemory | monitors/memory/src/memory_monitor.rs:154-184 | one entry per process, each the process's memory information |
| MemoryMonitor.Monitor.MemoryLeaks | monitors/memory/src/memory_monitor.rs:193-198 | exactly the growing processes above 1 MB/min |
| MemoryMonitor.LeakNeedsTenSamples | monitors/memory/src/memory_monitor.rs:193-233 | a reported leak has at least ten samples and a rate of 60 times its slope above 1 MB/min |
| SampleHistory.PushedKeepsNewest | monitors/memory/src/memory_monitor.rs:93-100 | pushing onto a bounded history keeps its newest entries, ends with the new sample and grows by at most one |
| SampleHistory.PushedBounded | monitors/memory/src/memory_monitor.rs:93-100 | a pushed history holds 1..cap samples: the sample is appended, and the front removed when the history was full |
| SampleHistory.RecordAllKeys | monitors/memory/src/memory_monitor.rs:86-101 | after a round of pushes the keys are the old keys plus those sampled |
| SampleHistory.RecordAllBounded | monitors/memory/src/memory_monitor.rs:86-101 | a round of pushes keeps every history within the cap |
| SampleHistory.RecordAllDistinct | monitors/memory/src/memory_monitor.rs:86-101 | with distinct keys, each key's history is its prior one with its sample pushed |
| SampleHistory.RecordAllUntouched | monitors/memory/src/memory_monitor.rs:86-101 | a key not sampled keeps its history |
| SampleHistory.Retain | monitors/memory/src/memory_monitor.rs:103-108 | exactly the live keys are kept, with their histories unchanged |
| DiskMonitor.TypeName | monitors/disk/src/disk_monitor.rs:27-35 | each disk type is shown by its own name |
| DiskMonitor.TypeNameInjective | monitors/disk/src/disk_monitor.rs:27-35 | distinct types have distinct names |
| DiskMonitor.DetermineDiskType | monitors/disk/src/disk_monitor.rs:141-162 | Network iff the file system names nfs, smb or afp; else Removable iff mounted under "/Volumes/" but not "Macintosh"; else SSD iff the root or under "/System"; else Unknown; never HDD |
| DiskMonitor.RootIsSsd | monitors/disk/src/disk_monitor.rs:141-162 | a local root volume is an SSD |
| DiskMonitor.SystemDataVolumeIsRemovable | monitors/disk/src/disk_monitor.rs:141-162 | "/System/Volumes/Data" is classified as removable, since it contains "/Volumes/" |
| DiskMonitor.ApfsIsLocal | monitors/disk/src/disk_monitor.rs:145-147 | apfs is not a network file system |
| DiskMonitor.Used | monitors/disk/src/disk_monitor.rs:79 | used space never exceeds the total; used plus available is the total when consistent, and 0 otherwise |
| DiskMonitor.UsedAsWrittenExceedsTotal | monitors/disk/src/disk_monitor.rs:79 | as written, a volume reporting more available bytes than its size wraps to a used figure above its size |
| DiskMonitor.UsedAgreesWhenConsistent | monitors/disk/src/disk_monitor.rs:79 | when available does not exceed the total, the corrected and the as-written used space agree |
| DiskMonitor.UsageAsWrittenExceedsHundred | monitors/disk/src/disk_monitor.rs:79-84 | as written, such a volume reports a usage above 100 % |
| DiskMonitor.InfoUsage | monitors/disk/src/disk_monitor.rs:71-104 | usage lies within 0..100, is 0 for an empty volume and 100 for a full one, and used plus available is the total |
| DiskMonitor.UsageWithin | monitors/disk/src/disk_monitor.rs:80-84 | a part of the total gives a usage within 0..100, and all of it gives 100 |
| DiskMonitor.FindByMount | monitors/disk/src/disk_monitor.rs:113-117 | none iff no disk is mounted there; otherwise the first disk mounted there |
| DiskMonitor.Samples | monitors/disk/src/disk_monitor.rs:57-59 | one sample per disk |
| DiskMonitor.SamplesAt | monitors/disk/src/disk_monitor.rs:57-59 | each sample is the disk's mount point and used space |
| DiskMonitor.RecordedHistoryKeys | monitors/disk/src/disk_monitor.rs:53-69 | the histories cover the old mount points and the sampled ones, each within 60 samples |
| DiskMonitor.RecordedHistoryPushes | monitors/disk/src/disk_monitor.rs:57-68 | each disk's used space is pushed onto its history, dropping the oldest beyond 60 |
| DiskMonitor.Growth | monitors/disk/src/disk_monitor.rs:126-139 | none without at least two samples; otherwise the change from first to last sample in MB per minute over the history length, with its sign |
| DiskMonitor.GrowthScaled | monitors/disk/src/disk_monitor.rs:133-135 | the float chain of divisions equals 60 times the growth over 1 MiB times the sample count |
| DiskMonitor.FirstSampleHasNoGrowth | monitors/disk/src/disk_monitor.rs:126-139 | a mount point seen for the first time has no growth rate |
| DiskMonitor.Pow1024 | monitors/disk/src/disk_monitor.rs:164-172 | every power of 1024 is at least 1 |
| DiskMonitor.Pow1024Monotone | monitors/disk/src/disk_monitor.rs:164-172 | powers of 1024 grow with the exponent |
| DiskMonitor.UnitIndex | monitors/disk/src/disk_monitor.rs:164-172 | the unit is the largest one, up to PB, whose size does not exceed the byte count |
| DiskMonitor.UnitIndexUnique | monitors/disk/src/disk_monitor.rs:164-172 | only one unit satisfies those bounds |
| DiskMonitor.ScaleBytes | monitors/disk/src/disk_monitor.rs:164-172 | the loop divides by 1024 until below 1024 or at PB, giving the unit and the scaled size |
| DiskMonitor.OneDecimal | monitors/disk/src/disk_monitor.rs:177 | one digit after the decimal point |
| DiskMonitor.BytesText | monitors/disk/src/disk_monitor.rs:174-178 | whole bytes below 1 KB, otherwise the scaled size with one decimal and its unit |
| DiskMonitor.FormatBytes | monitors/disk/src/disk_monitor.rs:164-179 | the loop and the formatting produce the byte text |
| DiskMonitor.UnitBands | monitors/disk/src/disk_monitor.rs:164-179 | a byte count between two powers of 1024 is shown in the lower unit |
| DiskMonitor.Monitor.constructor | monitors/disk/src/disk_monitor.rs:44-51 | the disks with an empty history |
| DiskMonitor.Monitor.Refresh | monitors/disk/src/disk_monitor.rs:53-69 | the new readings, with each disk's used space pushed onto its history; the used space is the corrected, saturating one (Findings, disk_monitor.rs:59), not the program's wrapping `u64` subtraction |
| DiskMonitor.Monitor.AllDisks | monitors/disk/src/disk_monitor.rs:71-104 | one entry per disk, each the disk's information |
| DiskMonitor.Monitor.HighUsageDisks | monitors/disk/src/disk_monitor.rs:119-124 | exactly the disks at or above the threshold |
| DiskMonitor.HighUsageExtremes | monitors/disk/src/disk_monitor.rs:119-124 | no disk is above 100 %, and every disk is at or above 0 % |
| DiskMonitor.PrimaryDiskIsRoot | monitors/disk/src/disk_monitor.rs:106-111 | the primary disk is mounted at the root and is an SSD unless networked |
| FileAnalyzer.New | monitors/disk/src/file_analyzer.rs:41-47 | depth 10, no minimum size and symlinks not followed, as `Default` also gives |
| FileAnalyzer.SettersIndependent | monitors/disk/src/file_analyzer.rs:49-62 | each builder sets its own field only, so they commute and the last one wins |
| FileAnalyzer.FileType | monitors/disk/src/file_analyzer.rs:203-210 | "directory" for directories, the extension for files, "no_extension" without one |
| FileAnalyzer.WalkNodes | monitors/disk/src/file_analyzer.rs:165-229 | every entry visited lies between the current depth and the maximum depth |
| FileAnalyzer.Walk | monitors/disk/src/file_analyzer.rs:165-229 | no entry is visited below the maximum depth |
| FileAnalyzer.WalkNodesIgnoresMinSize | monitors/disk/src/file_analyzer.rs:165-229 | the walk does not depend on the minimum file size |
| FileAnalyzer.WalkNodesIgnoresDeeper | monitors/disk/src/file_analyzer.rs:170-172 | cutting the tree below the maximum depth changes nothing visited |
| FileAnalyzer.WalkIgnoresDeeper | monitors/disk/src/file_analyzer.rs:170-172 | directories deeper than the maximum are not read at all |
| FileAnalyzer.DirCount | monitors/disk/src/file_analyzer.rs:78-79 | the directory count is at most the number of entries |
| FileAnalyzer.FileCount | monitors/disk/src/file_analyzer.rs:80-81 | the file count is at most the number of entries |
| FileAnalyzer.CountsPartition | monitors/disk/src/file_analyzer.rs:77-92 | every entry counts as exactly one file or directory |
| FileAnalyzer.TypeTotalsKeys | monitors/disk/src/file_analyzer.rs:85-86 | every type with a total comes from some visited file |
| FileAnalyzer.TypeTotalsSum | monitors/disk/src/file_analyzer.rs:82-86 | the per-type totals add up to the total size |
| FileAnalyzer.ListedMember | monitors/disk/src/file_analyzer.rs:88-90 | a file is listed iff it was visited, is not a directory and meets the minimum size |
| FileAnalyzer.LargestSorted | monitors/disk/src/file_analyzer.rs:95-96 | at most the top N, largest first, drawn from the listed files, all of them when there are few enough |
| FileAnalyzer.LargestDominates | monitors/disk/src/file_analyzer.rs:95-96 | no listed file left out is larger than one kept |
| FileAnalyzer.AnalyzeDirectory | monitors/disk/src/file_analyzer.rs:65-107 | the total size, file and directory counts, sizes by type and the largest listed files of the walk |
| FileAnalyzer.TotalIgnoresMinSize | monitors/disk/src/file_analyzer.rs:77-92 | the minimum size filters only the list, never the totals or counts |
| FileAnalyzer.DistinctKeys | monitors/disk/src/file_analyzer.rs:118-123 | each size is grouped once, and every size seen has its group |
| FileAnalyzer.Matching | monitors/disk/src/file_analyzer.rs:118-123 | a size's group holds exactly the paths of that size |
| FileAnalyzer.SizedPaths | monitors/disk/src/file_analyzer.rs:118-123 | each file contributes its size and path |
| FileAnalyzer.Hashed | monitors/disk/src/file_analyzer.rs:137-141 | each hashed path comes with the hash its read produced, every readable path is hashed, and unreadable files are dropped |
| FileAnalyzer.GroupsForHashesSound | monitors/disk/src/file_analyzer.rs:143-154 | a group has at least two files with its hash and its size |
| FileAnalyzer.GroupsForSizesSound | monitors/disk/src/file_analyzer.rs:128-155 | every group of any size is sound |
| FileAnalyzer.DuplicateGroupSound | monitors/disk/src/file_analyzer.rs:110-160 | a duplicate group has at least two visited files of its size and hash, above the minimum, and wastes the size times one less than their number |
| FileAnalyzer.FindDuplicates | monitors/disk/src/file_analyzer.rs:110-160 | the loop over sizes yields every group, sorted by wasted space |
| FileAnalyzer.HashedPairsGrouped | monitors/disk/src/file_analyzer.rs:130-154 | two different paths of one size with the same hash lie in one group of that size |
| FileAnalyzer.SizedPairsGrouped | monitors/disk/src/file_analyzer.rs:115-156 | two different paths of one size with the same hash lie in one collected group |
| FileAnalyzer.DuplicatesComplete | monitors/disk/src/file_analyzer.rs:110-160 | completeness: two different listed files of one size with the same hash lie together in one reported group |
| FileAnalyzer.DuplicateGroupsDisjoint | monitors/disk/src/file_analyzer.rs:110-160 | when each path has one size, no path lies in two groups |
| FileAnalyzer.GroupSize | monitors/disk/src/file_analyzer.rs:128-155 | the groups of one size, with fewer than two paths skipped |
| FileAnalyzer.GroupsByHash | monitors/disk/src/file_analyzer.rs:145-155 | the loop yields, in hash order, one group per hash that at least two files share, holding those files, with wasted space size × (count − 1) |
| FileAnalyzer.DuplicatesSorted | monitors/disk/src/file_analyzer.rs:158 | the result is ordered by wasted space, largest first, and is a permutation of the groups |
| FileAnalyzer.PlanFor | monitors/disk/src/file_analyzer.rs:233-242 | files under 1 MiB are hashed whole |
| FileAnalyzer.LargeFilesHashThreeChunks | monitors/disk/src/file_analyzer.rs:244-268 | larger files hash three 8 KiB chunks, at the start, the middle and the end, in order and ending at the file's end |
| ConnectionTracker.ParseState | monitors/network/src/connection_tracker.rs:264-279 | a known state iff the upper-cased text is one of its spellings, otherwise Unknown |
| ConnectionTracker.ParseStateSpelling | monitors/network/src/connection_tracker.rs:264-279 | every spelling, including the SYN_RCVD and FIN_WAIT1 aliases, parses to its state |
| ConnectionTracker.SpellingsDisjoint | monitors/network/src/connection_tracker.rs:264-279 | no spelling names two states |
| ConnectionTracker.ParseStateIgnoresCase | monitors/network/src/connection_tracker.rs:264-279 | parsing ignores case |
| ConnectionTracker.StateNameInjective | monitors/network/src/connection_tracker.rs:295-309 | distinct states have distinct display names |
| ConnectionTracker.StateColor | monitors/network/src/connection_tracker.rs:312-321 | one of the six colours, "secondary" exactly for Closing and Unknown |
| ConnectionTracker.ProtocolNameInjective | monitors/network/src/connection_tracker.rs:283-291 | the four named protocols have distinct display names |
| ConnectionTracker.WordRun | monitors/network/src/connection_tracker.rs:104 | the longest prefix of word characters, as `\w+` matches |
| ConnectionTracker.Endpoint | monitors/network/src/connection_tracker.rs:104 | an address, a dot and a port; the remote side may also be "*" |
| ConnectionTracker.EndpointOf | monitors/network/src/connection_tracker.rs:104 | every address and port joined by a dot splits back into them |
| ConnectionTracker.Port | monitors/network/src/connection_tracker.rs:115 | a port parses to a u16, or 0 |
| ConnectionTracker.WildcardPort | monitors/network/src/connection_tracker.rs:117-121 | "*" and unparsable ports read as 0, and every port fits a u16 |
| ConnectionTracker.FirstSome | monitors/network/src/connection_tracker.rs:107-108 | the regex captures the first position that matches |
| ConnectionTracker.TcpWindows | monitors/network/src/connection_tracker.rs:107-108 | every starting position of the line is tried |
| ConnectionTracker.ParseTcpLine | monitors/network/src/connection_tracker.rs:100-140 | a TCP row becomes an unattributed TCP or TCP6 connection |
| ConnectionTracker.ParseUdpLine | monitors/network/src/connection_tracker.rs:142-183 | a UDP row becomes an unattributed UDP or UDP6 connection in the Established state |
| ConnectionTracker.TcpAtOf | monitors/network/src/connection_tracker.rs:104-136 | a matching TCP window gives its protocol, endpoints and parsed state |
| ConnectionTracker.TcpAtUnmatched | monitors/network/src/connection_tracker.rs:104-113 | a window without a tcp protocol or a numeric local endpoint does not match |
| ConnectionTracker.UdpAtOf | monitors/network/src/connection_tracker.rs:146-178 | a matching UDP window gives its protocol and endpoints in the Established state |
| ConnectionTracker.ParseTcpRow | monitors/network/src/connection_tracker.rs:100-140 | a netstat TCP row with numeric addresses parses back to its fields |
| ConnectionTracker.ParseUdpRow | monitors/network/src/connection_tracker.rs:142-183 | a netstat UDP row with numeric addresses parses back to its fields |
| ConnectionTracker.WildcardListenerDropped | monitors/network/src/connection_tracker.rs:104 | a TCP row whose local address is "*" is not matched, since the local side admits no wildcard |
| ConnectionTracker.DualStackRowDropped | monitors/network/src/connection_tracker.rs:109-113 | a "tcp46" row is skipped |
| ConnectionTracker.SixTokenTcpLine | monitors/network/src/connection_tracker.rs:104-108 | a six-token line matches only at its start |
| ConnectionTracker.NetstatUnattributed | monitors/network/src/connection_tracker.rs:83-98 | netstat's connections carry no process |
| ConnectionTracker.Before | monitors/network/src/connection_tracker.rs:234-237 | the text before the first given character |
| ConnectionTracker.MatchTarget | monitors/network/src/connection_tracker.rs:215-262 | an arrow name targets a pair of ports; otherwise a name with a colon targets a listening port, and none without |
| ConnectionTracker.ArrowTarget | monitors/network/src/connection_tracker.rs:216-233 | an arrow name gives ports iff both sides have a colon |
| ConnectionTracker.PortTexts | monitors/network/src/connection_tracker.rs:221-232 | the text after each side's last colon, the remote one cut at "(" |
| ConnectionTracker.ListenTarget | monitors/network/src/connection_tracker.rs:247-251 | a listening port iff the name has a colon |
| ConnectionTracker.MatchTargetOfConnection | monitors/network/src/connection_tracker.rs:215-245 | "a:p->b:q" targets ports p and q |
| ConnectionTracker.MatchTargetArrow | monitors/network/src/connection_tracker.rs:216-217 | an arrow name is split at the arrow |
| ConnectionTracker.MatchTargetOfListener | monitors/network/src/connection_tracker.rs:246-251 | "a:p" targets listening port p |
| ConnectionTracker.NoPortNamed | monitors/network/src/connection_tracker.rs:215-262 | a name with neither arrow nor colon targets nothing |
| ConnectionTracker.FirstFit | monitors/network/src/connection_tracker.rs:236-242 | the first fitting connection, or none when none fits |
| ConnectionTracker.Claimed | monitors/network/src/connection_tracker.rs:236-259 | only the first fitting connection takes the pid and name; the rest are unchanged |
| ConnectionTracker.LsofRow | monitors/network/src/connection_tracker.rs:197-199 | a row of at least nine fields with a u32 pid |
| ConnectionTracker.LsofEntryAsWritten | monitors/network/src/connection_tracker.rs:197-207 | as written, an entry iff the row is well formed, carrying the row's last field |
| ConnectionTracker.EstablishedRowAsWritten | monitors/network/src/connection_tracker.rs:203-205 | as written, an established row hands "(ESTABLISHED)" to the matcher, which claims nothing |
| ConnectionTracker.LsofEntryOf | monitors/network/src/connection_tracker.rs:197-207 | an entry iff the row is well formed |
| ConnectionTracker.EstablishedRowClaimed | monitors/network/src/connection_tracker.rs:197-207 | the corrected parse attributes an established lsof row to the connection on its ports |
| ConnectionTracker.AttributeKeepsSockets | monitors/network/src/connection_tracker.rs:185-213 | attribution changes only the pid and name of connections |
| ConnectionTracker.AttributePidsKnown | monitors/network/src/connection_tracker.rs:195-207 | every attributed pid is in the process map |
| ConnectionTracker.SnapshotPidsKnown | monitors/network/src/connection_tracker.rs:71-81 | after a refresh every attributed pid is known, and the sockets are netstat's |
| ConnectionTracker.OwnedByExactly | monitors/network/src/connection_tracker.rs:62-69 | exactly the connections owned by the pid |
| ConnectionTracker.Tracker.constructor | monitors/network/src/connection_tracker.rs:50-55 | no connections and an empty process map |
| ConnectionTracker.Tracker.GetConnections | monitors/network/src/connection_tracker.rs:57-60 | a refresh, returning its connections |
| ConnectionTracker.Tracker.GetConnectionsForPid | monitors/network/src/connection_tracker.rs:62-69 | a refresh, returning the pid's connections |
| ConnectionTracker.Tracker.Refresh | monitors/network/src/connection_tracker.rs:71-81 | both tables are cleared and rebuilt from netstat and lsof; the lsof rows are read with the corrected NAME-field parse (Findings, connection_tracker.rs:203-205), not `parts.last()` as the program does |
| ConnectionTracker.Tracker.ParseNetstat | monitors/network/src/connection_tracker.rs:83-98 | TCP then UDP connections are appended; nothing when netstat fails |
| ConnectionTracker.Tracker.ParseTcpConnections | monitors/network/src/connection_tracker.rs:100-140 | the TCP connections of the output are appended |
| ConnectionTracker.Tracker.ParseUdpConnections | monitors/network/src/connection_tracker.rs:142-183 | the UDP connections of the output are appended |
| ConnectionTracker.Tracker.ParseLines | monitors/network/src/connection_tracker.rs:107-108 | every line that parses is appended, in order |
| ConnectionTracker.Tracker.MapProcessesWithLsof | monitors/network/src/connection_tracker.rs:185-213 | each lsof row after the header records its process and claims its connection, read with the corrected NAME-field parse (Findings, connection_tracker.rs:203-205), not `parts.last()` as the program does |
| ConnectionTracker.Tracker.MatchConnectionWithProcess | monitors/network/src/connection_tracker.rs:215-262 | the connection the name targets is claimed |
| ConnectionTracker.Tracker.ClaimFirst | monitors/network/src/connection_tracker.rs:236-259 | the loop claims the first fitting connection and stops |
| BandwidthMonitor.HeaderInterface | monitors/network/src/bandwidth_monitor.rs:178-197 | the name is the text before the first colon; active iff the line mentions both UP and RUNNING; every counter is zero |
| BandwidthMonitor.HeaderNamesInterface | monitors/network/src/bandwidth_monitor.rs:170-185 | "name: …" starting at column 0 is a header naming that interface |
| BandwidthMonitor.IfconfigScanHeaders | monitors/network/src/bandwidth_monitor.rs:165-211 | the scan, with its pending interface flushed, yields one interface per header line |
| BandwidthMonitor.IfconfigOnePerHeader | monitors/network/src/bandwidth_monitor.rs:165-211 | ifconfig yields exactly one zeroed interface per header line, in order |
| BandwidthMonitor.Count | monitors/network/src/bandwidth_monitor.rs:222-227 | a counter parses to a u64, or 0 |
| BandwidthMonitor.NetstatInterface | monitors/network/src/bandwidth_monitor.rs:217-244 | a row of at least eleven fields names an interface, active iff it moved bytes, with no drops |
| BandwidthMonitor.ParseNetstatRow | monitors/network/src/bandwidth_monitor.rs:213-248 | a netstat -ib row parses back to its name and counters |
| BandwidthMonitor.NetstatSkipsHeader | monitors/network/src/bandwidth_monitor.rs:218 | the first line is skipped as a header |
| BandwidthMonitor.IfconfigPreferred | monitors/network/src/bandwidth_monitor.rs:73-91 | when ifconfig lists interfaces, those are used and all their counters are zero |
| BandwidthMonitor.NetstatFallback | monitors/network/src/bandwidth_monitor.rs:82-88 | when ifconfig lists none, netstat's interfaces are used |
| BandwidthMonitor.Elapsed | monitors/network/src/bandwidth_monitor.rs:111 | the elapsed time is never negative and positive iff the snapshot is older |
| BandwidthMonitor.Rate | monitors/network/src/bandwidth_monitor.rs:117-118 | the byte difference over the elapsed time, truncated and saturated at u64 |
| BandwidthMonitor.RateOfBytes | monitors/network/src/bandwidth_monitor.rs:117-118 | no bytes give no rate, and one second gives the bytes themselves |
| BandwidthMonitor.Lookup | monitors/network/src/bandwidth_monitor.rs:110 | the interface's snapshot iff one was stored |
| BandwidthMonitor.SweepKeys | monitors/network/src/bandwidth_monitor.rs:105-134 | after a sweep the snapshots cover the old names and every active interface |
| BandwidthMonitor.SweepUntouched | monitors/network/src/bandwidth_monitor.rs:105-134 | an interface that is not active keeps its snapshot |
| BandwidthMonitor.SweepRecordsLast | monitors/network/src/bandwidth_monitor.rs:126-133 | an active interface's snapshot is its last reading at this instant |
| BandwidthMonitor.SweepTotals | monitors/network/src/bandwidth_monitor.rs:105-124 | with distinct names, the totals are the sums of each interface's rates |
| BandwidthMonitor.FreshSweepIsQuiet | monitors/network/src/bandwidth_monitor.rs:113 | when no snapshot is older than now, no traffic is counted |
| BandwidthMonitor.ZeroCountersAreQuiet | monitors/network/src/bandwidth_monitor.rs:115-121 | interfaces with zero counters produce zero traffic |
| BandwidthMonitor.IfconfigRefreshIsQuiet | monitors/network/src/bandwidth_monitor.rs:97-124 | whenever ifconfig lists interfaces, every refresh reports zero traffic |
| BandwidthMonitor.Peak | monitors/network/src/bandwidth_monitor.rs:140-148 | the peak is the larger of the old peak and the sample |
| BandwidthMonitor.InitialConsistent | monitors/network/src/bandwidth_monitor.rs:48-66 | the initial state keeps totals within count × peak |
| BandwidthMonitor.RefreshKeepsConsistent | monitors/network/src/bandwidth_monitor.rs:136-161 | a refresh keeps totals within count × peak, never lowers a peak, counts one sample more and reports the sweep's totals |
| BandwidthMonitor.AverageWithinPeak | monitors/network/src/bandwidth_monitor.rs:152-156 | averages never exceed peaks |
| BandwidthMonitor.ProcessBandwidth | monitors/network/src/bandwidth_monitor.rs:93-95 | a pid's recorded bandwidth iff it has one |
| BandwidthMonitor.NoProcessBandwidth | monitors/network/src/bandwidth_monitor.rs:250-269 | no pid ever has bandwidth, since nettop's output is not parsed |
| BandwidthMonitor.Monitor.constructor | monitors/network/src/bandwidth_monitor.rs:48-66 | empty snapshots and zeroed statistics |
| BandwidthMonitor.Monitor.GetCurrentBandwidth | monitors/network/src/bandwidth_monitor.rs:68-71 | a refresh, returning the new statistics |
| BandwidthMonitor.Monitor.GetInterfaceStats | monitors/network/src/bandwidth_monitor.rs:73-91 | ifconfig's interfaces, else netstat's |
| BandwidthMonitor.Monitor.GetProcessBandwidth | monitors/network/src/bandwidth_monitor.rs:93-95 | always none |
| BandwidthMonitor.Monitor.Refresh | monitors/network/src/bandwidth_monitor.rs:97-163 | the sweep over the interfaces and the recorded sample |
| BandwidthMonitor.Monitor.RecordSample | monitors/network/src/bandwidth_monitor.rs:136-157 | the current rates, raised peaks, one more sample and the integer averages |
| BandwidthMonitor.Monitor.ParseIfconfig | monitors/network/src/bandwidth_monitor.rs:165-211 | the loop yields ifconfig's interfaces |
| BandwidthMonitor.Monitor.ParseNetstatInterfaces | monitors/network/src/bandwidth_monitor.rs:213-248 | the loop yields netstat's interfaces |
| NetworkMonitor.CachedFor | monitors/network/src/network_monitor.rs:36-41 | cached metrics are served iff present and less than 1.5 s old |
| NetworkMonitor.TotalsCountEvery | monitors/network/src/network_monitor.rs:84-100 | every interface's counters are included in the totals |
| NetworkMonitor.TotalsOfZeroed | monitors/network/src/network_monitor.rs:84-100 | interfaces with zeroed counters total zero |
| NetworkMonitor.IfconfigTotalsAreZero | monitors/network/src/network_monitor.rs:44-50 | whenever ifconfig lists interfaces, the reported totals are zero |
| NetworkMonitor.ActiveInterfaces | monitors/network/src/network_monitor.rs:52-57 | exactly the names of the active interfaces |
| NetworkMonitor.Monitor.constructor | monitors/network/src/network_monitor.rs:25-33 | a fresh tracker and bandwidth monitor and no cache |
| NetworkMonitor.Monitor.GetMetrics | monitors/network/src/network_monitor.rs:35-74 | fresh cached metrics are returned unchanged; otherwise connections, bandwidth, totals and active interfaces are gathered and cached with the time |
| NetworkMonitor.Monitor.GetConnectionsForProcess | monitors/network/src/network_monitor.rs:76-78 | a tracker refresh, returning the pid's connections |
| NetworkMonitor.Monitor.GetBandwidthForProcess | monitors/network/src/network_monitor.rs:80-82 | the bandwidth monitor's answer, which is always none |
| NetworkMonitor.Monitor.CalculateTotals | monitors/network/src/network_monitor.rs:84-100 | the loop sums the four counters over the interfaces |
| NetworkMonitor.Monitor.Refresh | monitors/network/src/network_monitor.rs:102-107 | the cache is cleared and both the tracker and the bandwidth monitor are refreshed |

## Behaviour of the code worth knowing

- Protection is by pid only, for pids 0 and 1. No process names are protected (`MacKernel.KernelProcessExamples`, `MacProcess.ProtectedPidsNeedNoProbe`).
- `detect_deadlock` applies one fixed rule: a process in uninterruptible wait gets confidence 0.7. Confidence does not add up over several signals, and no other process is checked for shared resources (`MacAnalyzer.ProcessAnalyzer.DetectDeadlock`).
- A failed existence probe counts as a failed signal. So a pid that has exited fails all three probes and is reported unkillable (`MacAnalyzer.VanishedProcessFailsEveryProbe`).
- `collect_stack_trace` is declared but has no macOS implementation. The flame graph is therefore built from traces given as input.

## Left out

- Operating-system calls and external tools become inputs: `kill`, `getpriority`, `setpriority`, `sysctl`, `proc_pidpath`, `ps`, `lsof`, `netstat`, `ifconfig`, `nettop`, `cpulimit`, `pkill` and `which`. The `sleep` between probes is left out.
- The IOKit and CoreFoundation SMC bindings: the service lookup and each key's raw bytes are inputs to the thermal monitor. The mock xorshift generator becomes one `variations` entry per sensor.
- `Instant` and `SystemTime` become explicit millisecond or second counts passed as parameters.
- Floating point: `f32` and `f64` values are modelled as reals, with no rounding, NaN or infinity. A zero baseline frequency, whose ratio would be infinite or NaN, is modelled as not throttled. Decimal rendering is modelled only as far as its shape (one digit after the point).
- MemoryMonitor.GrowthRate: the least-squares slope of the history is a parameter; its floating-point regression is not modelled.
- FileAnalyzer.Hashed: blake3 is a parameter `hash`, so equal hashes stand for equal contents. The chunks read for it are modelled (`FileAnalyzer.PlanFor`).
- Bounded integers: u32 pids, u64 byte counts and usize lengths are unbounded naturals. Parsers still honour the u16, u32 and u64 bounds. Outside the findings below, these overflows are not modelled: the running bandwidth totals, the memory and disk `* 1024` conversions, and the sums in `calculate_totals`.
- `HashMap` and `HashSet` iteration order is modelled as the order of the input sequence, or of first appearance. Unordered results are stated as sets or permutations where the source promises nothing more.
- Text is ASCII: `to_lowercase` and `to_uppercase` fold ASCII letters only. `String::from_utf8_lossy` is the identity.
- serde_json: a history line that does not parse is `None`. `FlameGraphData::export_to_json` and the history file's JSON encoding are not modelled.
- chrono is replaced by the civil-date computation in `Calendar`.
- regex: the netstat TCP and UDP patterns are modelled token by token over the whitespace-split line, each window tried from the left.
- The flame-graph tree is a value whose children are a sequence with distinct keys. The builder's mutable cursor into that tree is replaced by a recursive insertion (`FlameGraph.InsertPath`).
- BandwidthMonitor.NoProcessBandwidth: `update_process_bandwidth` runs `nettop`, but `parse_nettop` is an empty stub, so per-process bandwidth is always empty. The run itself is not modelled.
- NetworkMonitor.Monitor.GetMetrics: one set of tool outputs serves both reads of the interface list in `get_metrics`. The program runs `ifconfig` twice, and the two runs could differ.
- HardwareMonitor.SpellPrefixes: its contract states only that a name without an SMC prefix is unchanged. The spelled-out forms are fixed by the examples `CleanCoreName`, `CleanBatteryName` and `CleanPaddedName`.
- ThermalMonitor.CountRecent: its contract bounds the count. Its meaning is fixed by `CountRecentMonotone` and `CountRecentAll`.
- ConnectionTracker.Tracker.Refresh: models the corrected tracker, whose lsof rows are read through the NAME field (`LsofEntryOf`). The program's `parts.last()` reading is modelled only by `ConnectionTracker.EstablishedRowAsWritten` (Findings).
- ConnectionTracker.Tracker.MapProcessesWithLsof: the same correction as `Tracker.Refresh`; an as-written attribution over `parts.last()` is not modelled as a method.
- DiskMonitor.Monitor.Refresh: records the saturating used space (`DiskMonitor.Used`). The program's `u64` subtraction at disk_monitor.rs:59 is modelled by `DiskMonitor.UsedAsWrittenExceedsTotal` (Findings).
- CpuHistory.Store.constructor, CpuHistory.Store.AddDataPoint, CpuHistory.Store.FlushToDisk, CpuHistory.Store.CleanupOldFiles, CpuHistory.Store.GetHistoricalData: file I/O is total in the model. The `std::io::Result` errors are left out: `create_dir_all` or `read_dir` failing in `new`, `open` or a write failing in `flush_to_disk`, `remove_file` failing partway through cleanup (which leaves `daily_files` partly pruned), and a line that cannot be read. A missing file reads as empty, as `load_data_from_file` does.
- Concurrency: the `RwLock` response cache and the `Mutex` singletons. The model is single-threaded.
- The C FFI layers and the C exports of the process limiter. They are pointer and ownership plumbing around the modelled calls.
- The Windows platform stubs, which return `NotSupported` for every operation.
- Thin wiring: the sysinfo passthrough, the `mod.rs` and `lib.rs` files, and the older copy of the process monitor.

## Findings

| source | as written | input that shows it | evidently intended | confidence | as-written member | corrected member |
|---|---|---|---|---|---|---|
| monitors/cpu/src/cpu_analyzer.rs:151 | the older average divides by `(history.len() - 5).max(1)` on `usize` | a history of 2 to 4 readings: `history.len() - 5` underflows `usize` and panics in a build with overflow checks; without them it wraps, `5.0_f32.min` of the wrapped value is 5 and the older sum is empty, so only the checked build misbehaves | a saturating subtraction, giving the average of the older readings, or 0 when there are none | not executed | CpuAnalyzer.TrendAsWrittenOverflows | CpuAnalyzer.CpuTrend |
| monitors/disk/src/disk_monitor.rs:59 | the used space pushed onto each disk's history is `total_space() - available_space()` on `u64` | a volume reporting total 0 and available 1 records 2^64 - 1 bytes used, or panics with overflow checks | used space saturating at 0 | not executed | DiskMonitor.UsedAsWrittenExceedsTotal | DiskMonitor.Used |
| monitors/disk/src/disk_monitor.rs:79 | `used = total - available` on `u64` | a volume reporting total 0 and available 1 gets a used size of 2^64 - 1; one reporting total 1 and available 2 gets a usage above 100 % | used space saturating at 0, with usage within 0..100 % | not executed | DiskMonitor.UsageAsWrittenExceedsHundred | DiskMonitor.InfoUsage |
| monitors/network/src/connection_tracker.rs:203-205 | the matcher is given `parts.last()` of each lsof row | an established row ends in "(ESTABLISHED)", a tenth field, so the addresses never reach the matcher and no connection is claimed | the NAME column, the ninth field, holding "local:port->remote:port" | not executed | ConnectionTracker.EstablishedRowAsWritten | ConnectionTracker.EstablishedRowClaimed |
