/** The macOS process analyzer: signal probes, the unkillable verdict and its cache,
    the `ps` parsers, the I/O-wait guess and the deadlock rule. Every `kill` outcome,
    every elapsed time and every `ps` output is an input. */
module MacAnalyzer {
  import opened Common
  import opened Strings
  import opened Seqs
  import opened Posix
  import opened Platform

  /** What one `test_signal_response` call observed: the outcome of `kill(pid, signal)`,
      of the follow-up `kill(pid, 0)`, and the milliseconds elapsed at that point. */
  datatype SignalProbe = SignalProbe(sent: SysResult, recheck: SysResult, elapsedMs: nat)

  /** `test_signal_response`. */
  function TestSignalResponse(signal: int, timeoutMs: nat, probe: SignalProbe): (responded: bool)
    ensures probe.sent.Failed? ==> !responded
    ensures signal == 0 ==> (responded <==> probe.sent.Succeeded?)
    ensures signal != 0 ==>
              (responded <==> probe.sent.Succeeded? && probe.recheck.Succeeded? && probe.elapsedMs < timeoutMs)
  {
    if probe.sent.Failed? then false
    else if signal == 0 then true
    else probe.recheck.Succeeded? && probe.elapsedMs < timeoutMs
  }

  /** A process that answered within a timeout answers within any longer one. */
  lemma ResponseMonotoneInTimeout(signal: int, t1: nat, t2: nat, probe: SignalProbe)
    requires t1 <= t2 && TestSignalResponse(signal, t1, probe)
    ensures TestSignalResponse(signal, t2, probe)
  {
  }

  /** The signals both analyses send: the existence probe, SIGTERM and SIGCONT. */
  const ProbeSignals: seq<int> := [0, SIGTERM, SIGCONT]

  /** How many of the probes failed, `probes[i]` being what sending `signals[i]` observed. */
  function FailedProbes(signals: seq<int>, probes: seq<SignalProbe>, timeoutMs: nat): (n: nat)
    requires |probes| == |signals|
    ensures n <= |signals|
  {
    if signals == [] then 0
    else
      var k := |signals| - 1;
      FailedProbes(signals[..k], probes[..k], timeoutMs)
        + (if TestSignalResponse(signals[k], timeoutMs, probes[k]) then 0 else 1)
  }

  /** The signals whose probe failed, in the order they were sent. */
  function FailedSignals(signals: seq<int>, probes: seq<SignalProbe>, timeoutMs: nat): (r: seq<int>)
    requires |probes| == |signals|
    ensures |r| == FailedProbes(signals, probes, timeoutMs)
    ensures forall s :: s in r ==> s in signals
  {
    if signals == [] then []
    else
      var k := |signals| - 1;
      FailedSignals(signals[..k], probes[..k], timeoutMs)
        + (if TestSignalResponse(signals[k], timeoutMs, probes[k]) then [] else [signals[k]])
  }

  /** One more probe of a prefix adds its signal when it failed. */
  lemma FailedSignalsPrefix(signals: seq<int>, probes: seq<SignalProbe>, timeoutMs: nat, i: nat)
    requires |probes| == |signals| && i < |signals|
    ensures FailedSignals(signals[..i + 1], probes[..i + 1], timeoutMs)
         == FailedSignals(signals[..i], probes[..i], timeoutMs)
            + (if TestSignalResponse(signals[i], timeoutMs, probes[i]) then [] else [signals[i]])
  {
    assert signals[..i + 1][..i] == signals[..i];
    assert probes[..i + 1][..i] == probes[..i];
  }

  /** The counting loop of `analyze_unkillable`. */
  method CountFailedProbes(signals: seq<int>, probes: seq<SignalProbe>, timeoutMs: nat) returns (failed: nat)
    requires |probes| == |signals|
    ensures failed == FailedProbes(signals, probes, timeoutMs)
  {
    failed := 0;
    var i := 0;
    while i < |signals|
      invariant 0 <= i <= |signals|
      invariant failed == FailedProbes(signals[..i], probes[..i], timeoutMs)
    {
      assert signals[..i + 1][..i] == signals[..i];
      assert probes[..i + 1][..i] == probes[..i];
      if !TestSignalResponse(signals[i], timeoutMs, probes[i]) {
        failed := failed + 1;
      }
      i := i + 1;
    }
    assert signals[..i] == signals && probes[..i] == probes;
  }

  /** The count over the three probe signals, written out. */
  lemma UnfoldThreeProbes(probes: seq<SignalProbe>, timeoutMs: nat)
    requires |probes| == 3
    ensures FailedProbes(ProbeSignals, probes, timeoutMs) ==
              (if TestSignalResponse(0, timeoutMs, probes[0]) then 0 else 1)
              + (if TestSignalResponse(SIGTERM, timeoutMs, probes[1]) then 0 else 1)
              + (if TestSignalResponse(SIGCONT, timeoutMs, probes[2]) then 0 else 1)
  {
    assert ProbeSignals[..2] == [0, SIGTERM];
    assert ProbeSignals[..2][..1] == [0];
    assert probes[..2][..1] == probes[..1];
    assert [0][..0] == [];
    assert FailedProbes([0], probes[..1], timeoutMs) == (if TestSignalResponse(0, timeoutMs, probes[0]) then 0 else 1);
  }

  /** A process that has exited fails every probe, so it is counted as unkillable. */
  lemma VanishedProcessFailsEveryProbe(probes: seq<SignalProbe>, timeoutMs: nat)
    requires |probes| == 3
    requires forall i :: 0 <= i < 3 ==> probes[i].sent.Failed?
    ensures FailedProbes(ProbeSignals, probes, timeoutMs) == 3
  {
    UnfoldThreeProbes(probes, timeoutMs);
  }

  /** A process that exists and outlives both signals within the timeout fails none. */
  lemma HealthyProcessPassesEveryProbe(probes: seq<SignalProbe>, timeoutMs: nat)
    requires |probes| == 3
    requires forall i :: 0 <= i < 3 ==>
               probes[i].sent.Succeeded? && probes[i].recheck.Succeeded? && probes[i].elapsedMs < timeoutMs
    ensures FailedProbes(ProbeSignals, probes, timeoutMs) == 0
  {
    UnfoldThreeProbes(probes, timeoutMs);
  }

  /** What the analyzer remembers about one pid. Instants are milliseconds on the
      caller's clock. */
  datatype ResponseHistory = ResponseHistory(
    lastTestTimeMs: nat,
    responseTimes: seq<nat>,
    failedSignals: seq<int>,
    isMarkedUnkillable: bool)

  /** The entry `analyze_unkillable` leaves for `pid`: the previous entry (or a fresh one)
      restamped and re-marked, with the signals that failed the 100 ms second pass
      appended when, and only when, the verdict is "unkillable". */
  function NextHistory(cache: map<nat, ResponseHistory>, pid: nat, nowMs: nat, unkillable: bool,
                       secondPass: seq<SignalProbe>): (h: ResponseHistory)
    requires |secondPass| == 3
    ensures h.lastTestTimeMs == nowMs && h.isMarkedUnkillable == unkillable
    ensures pid in cache ==> h.responseTimes == cache[pid].responseTimes
    ensures pid !in cache ==> h.responseTimes == []
    ensures !unkillable ==> h.failedSignals == (if pid in cache then cache[pid].failedSignals else [])
    ensures unkillable ==>
              h.failedSignals == (if pid in cache then cache[pid].failedSignals else [])
                                 + FailedSignals(ProbeSignals, secondPass, 100)
  {
    var prior := if pid in cache then cache[pid] else ResponseHistory(nowMs, [], [], false);
    prior.(lastTestTimeMs := nowMs, isMarkedUnkillable := unkillable,
          failedSignals := prior.failedSignals + (if unkillable then FailedSignals(ProbeSignals, secondPass, 100) else []))
  }

  /** Facts `ps -o pid,ppid,state,wchan,ni,time -p <pid>` gives about one process. */
  datatype SysctlInfo = SysctlInfo(pid: nat, stateChar: char, wchan: Option<string>, nice: int, cpuTime: string)

  /** The record built from the six fields of the data row. */
  function SysctlRow(pid: nat, fields: seq<string>): (info: SysctlInfo)
    requires |fields| >= 6
    ensures info.pid == pid
    ensures info.stateChar == (if fields[2] == [] then '?' else fields[2][0])
    ensures info.wchan.None? <==> fields[3] == "-"
    ensures info.wchan.Some? ==> info.wchan.value == fields[3]
    ensures ParseSigned(fields[4], I32_MIN, I32_MAX).Some? ==> info.nice == ParseSigned(fields[4], I32_MIN, I32_MAX).value
    ensures ParseSigned(fields[4], I32_MIN, I32_MAX).None? ==> info.nice == 0
    ensures info.cpuTime == fields[5]
  {
    SysctlInfo(
      pid,
      if fields[2] == [] then '?' else fields[2][0],
      if fields[3] == "-" then None else Some(fields[3]),
      ParseSigned(fields[4], I32_MIN, I32_MAX).UnwrapOr(0),
      fields[5])
  }

  /** `get_process_sysctl_info`: `output` is what running `ps` gave. */
  function GetProcessSysctlInfo(pid: nat, output: CommandOutput): (r: Result<SysctlInfo, PlatformError>)
    ensures output.SpawnFailed? ==> r == Err(SystemCallFailed("ps command failed: " + output.reason))
    ensures output.Spawned? && |Lines(output.stdout)| < 2 ==> r == Err(ProcessNotFound(pid))
    ensures output.Spawned? && |Lines(output.stdout)| >= 2 && |SplitWhitespace(Lines(output.stdout)[1])| < 6 ==>
              r == Err(SystemCallFailed("Invalid ps output"))
    ensures r.Ok? <==> output.Spawned? && |Lines(output.stdout)| >= 2 && |SplitWhitespace(Lines(output.stdout)[1])| >= 6
    ensures r.Ok? ==> r.value == SysctlRow(pid, SplitWhitespace(Lines(output.stdout)[1]))
  {
    match output
    case SpawnFailed(reason) => Err(SystemCallFailed("ps command failed: " + reason))
    case Spawned(stdout) =>
      var lines := Lines(stdout);
      if |lines| < 2 then Err(ProcessNotFound(pid))
      else
        var fields := SplitWhitespace(lines[1]);
        if |fields| < 6 then Err(SystemCallFailed("Invalid ps output"))
        else Ok(SysctlRow(pid, fields))
  }

  /** The row `ps` prints for a process, with the columns separated by single spaces. */
  function PsRow(pid: nat, ppid: nat, state: string, wchan: Option<string>, nice: int, time: string): string {
    Join([NatToString(pid), NatToString(ppid), state, wchan.UnwrapOr("-"), IntToString(nice), time], " ")
  }

  /** Parsing a header followed by the row `ps` prints gives back the state's first
      letter, the wait channel, the nice value and the CPU time. */
  lemma SysctlInfoRoundTrip(header: string, pid: nat, ppid: nat, state: string, wchan: Option<string>,
                            nice: int, time: string)
    requires '\n' !in header
    requires state != [] && NoSpace(state) && time != [] && NoSpace(time)
    requires wchan.Some? ==> wchan.value != [] && NoSpace(wchan.value) && wchan.value != "-"
    requires I32_MIN <= nice <= I32_MAX
    ensures GetProcessSysctlInfo(pid, Spawned(header + "\n" + PsRow(pid, ppid, state, wchan, nice, time)))
            == Ok(SysctlInfo(pid, state[0], wchan, nice, time))
  {
    var words := [NatToString(pid), NatToString(ppid), state, wchan.UnwrapOr("-"), IntToString(nice), time];
    NumbersAreWords(pid, nice);
    NumbersAreWords(ppid, nice);
    assert forall i :: 0 <= i < |words| ==> words[i] != [] && NoSpace(words[i]);
    var row := Join(words, " ");
    JoinedWordsOneLine(words);
    SplitJoinedWords(words);
    LinesCons(header, row);
    LinesSingle(row);
    ParseSignedOfIntToString(nice, I32_MIN, I32_MAX);
    assert Lines(header + "\n" + row)[1] == row;
  }

  /** `get_process_state`: the `ps` facts plus the fields macOS does not report. */
  function GetProcessState(pid: nat, output: CommandOutput): (r: Result<ProcessState, PlatformError>)
    ensures r.Err? <==> GetProcessSysctlInfo(pid, output).Err?
    ensures r.Err? ==> r.error == GetProcessSysctlInfo(pid, output).error
    ensures r.Ok? ==>
              var info := GetProcessSysctlInfo(pid, output).value;
              r.value.stateChar == info.stateChar && r.value.wchan == info.wchan && r.value.nice == info.nice
              && r.value.tgid == pid && r.value.numThreads == 1
              && r.value.flags == 0 && r.value.blockedSignals == 0 && r.value.pendingSignals == 0
  {
    match GetProcessSysctlInfo(pid, output)
    case Err(e) => Err(e)
    case Ok(info) => Ok(ProcessState(info.stateChar, info.wchan, 0, info.nice, 1, pid, 0, 0))
  }

  /** The pid of one `ps -axo pid,state` row when its state contains 'D'. */
  function UninterruptiblePid(line: string): (r: Option<nat>)
    ensures r.Some? <==>
              |SplitWhitespace(line)| >= 2 && ParseUnsigned(SplitWhitespace(line)[0], U32_MAX).Some?
              && 'D' in SplitWhitespace(line)[1]
    ensures r.Some? ==> r.value == ParseUnsigned(SplitWhitespace(line)[0], U32_MAX).value
  {
    var fields := SplitWhitespace(line);
    if |fields| >= 2 then
      match ParseUnsigned(fields[0], U32_MAX)
      case Some(pid) => if 'D' in fields[1] then Some(pid) else None
      case None => None
    else None
  }

  /** `find_uninterruptible_processes`. */
  method FindUninterruptibleProcesses(output: CommandOutput) returns (r: Result<seq<nat>, PlatformError>)
    ensures output.SpawnFailed? ==> r == Err(SystemCallFailed("ps command failed: " + output.reason))
    ensures output.Spawned? ==> r == Ok(FilterMap(SkipFirst(Lines(output.stdout)), UninterruptiblePid))
  {
    match output
    case SpawnFailed(reason) =>
      return Err(SystemCallFailed("ps command failed: " + reason));
    case Spawned(stdout) =>
      var pids := UninterruptiblePids(SkipFirst(Lines(stdout)));
      return Ok(pids);
  }

  /** The loop over the rows of `ps` after its header. */
  method UninterruptiblePids(rows: seq<string>) returns (pids: seq<nat>)
    ensures pids == FilterMap(rows, UninterruptiblePid)
  {
    pids := [];
    var i := 0;
    while i < |rows|
      invariant 0 <= i <= |rows|
      invariant pids == FilterMap(rows[..i], UninterruptiblePid)
    {
      pids := ReadStateRow(rows, i, pids);
      i := i + 1;
    }
    assert rows[..i] == rows;
  }

  /** The body of the `ps` loop for row `i`: its pid is kept when the state holds 'D'. */
  method ReadStateRow(rows: seq<string>, i: nat, pids: seq<nat>) returns (pids': seq<nat>)
    requires i < |rows| && pids == FilterMap(rows[..i], UninterruptiblePid)
    ensures pids' == FilterMap(rows[..i + 1], UninterruptiblePid)
  {
    pids' := pids;
    var fields := SplitWhitespace(rows[i]);
    if |fields| >= 2 {
      var parsed := ParseUnsigned(fields[0], U32_MAX);
      if parsed.Some? && 'D' in fields[1] {
        pids' := pids + [parsed.value];
      }
    }
    assert pids' == pids + OptionToSeq(UninterruptiblePid(rows[i]));
    assert FilterMap(rows[..i + 1], UninterruptiblePid) == pids + OptionToSeq(UninterruptiblePid(rows[i])) by {
      FilterMapSnoc(rows[..i], rows[i], UninterruptiblePid);
      assert rows[..i + 1] == rows[..i] + [rows[i]];
    }
  }

  /** A pid is reported exactly when some row after the header names it with a 'D' state. */
  lemma UninterruptibleReportedExactly(stdout: string, pid: nat)
    ensures pid in FilterMap(SkipFirst(Lines(stdout)), UninterruptiblePid) <==>
            exists i :: 1 <= i < |Lines(stdout)| && UninterruptiblePid(Lines(stdout)[i]) == Some(pid)
  {
    var lines := Lines(stdout);
    var rows := SkipFirst(lines);
    FilterMapMember(rows, UninterruptiblePid, pid);
    if exists i :: 1 <= i < |lines| && UninterruptiblePid(lines[i]) == Some(pid) {
      var i :| 1 <= i < |lines| && UninterruptiblePid(lines[i]) == Some(pid);
      assert rows[i - 1] == lines[i];
    }
    if exists j :: 0 <= j < |rows| && UninterruptiblePid(rows[j]) == Some(pid) {
      var j :| 0 <= j < |rows| && UninterruptiblePid(rows[j]) == Some(pid);
      assert lines[j + 1] == rows[j];
    }
  }

  /** The wait-channel names that suggest block I/O. */
  predicate IoWaitChannel(w: string) {
    Contains(w, "bio") || Contains(w, "disk") || Contains(w, "read") || Contains(w, "write")
  }

  /** The wait-channel names that suggest networking. */
  predicate NetworkWaitChannel(w: string) {
    Contains(w, "net") || Contains(w, "sock")
  }

  predicate IsIoWait(info: SysctlInfo) {
    info.stateChar == 'D' || (info.wchan.Some? && IoWaitChannel(info.wchan.value))
  }

  /** `analyze_io_wait`: one pending operation and a nominal second of waiting when the
      process looks I/O-bound, nothing otherwise. */
  function AnalyzeIoWait(pid: nat, output: CommandOutput): (r: Result<IoWaitInfo, PlatformError>)
    ensures r.Err? <==> GetProcessSysctlInfo(pid, output).Err?
    ensures r.Err? ==> r.error == GetProcessSysctlInfo(pid, output).error
    ensures r.Ok? ==>
              var info := GetProcessSysctlInfo(pid, output).value;
              (r.value.ioOperationsPending == 1 <==> IsIoWait(info))
              && (r.value.ioOperationsPending == 0 <==> !IsIoWait(info))
              && r.value.totalWaitTimeMs == 1000 * r.value.ioOperationsPending
              && r.value.currentWaitOperation == info.wchan && r.value.blockedOnDevice.None?
  {
    match GetProcessSysctlInfo(pid, output)
    case Err(e) => Err(e)
    case Ok(info) =>
      var waiting := IsIoWait(info);
      Ok(IoWaitInfo(if waiting then 1000 else 0, info.wchan, None, if waiting then 1 else 0))
  }

  /** What `test_process_responsiveness` observed: the opening existence probe (500 ms
      timeout), the milliseconds it took, and the three probes of `ProbeSignals` (200 ms). */
  datatype ResponsivenessObservation = ResponsivenessObservation(
    existence: SignalProbe, responseTimeMs: nat, probes: seq<SignalProbe>)

  /** `test_process_responsiveness`. */
  method TestProcessResponsiveness(obs: ResponsivenessObservation) returns (r: Result<ProcessResponsiveness, PlatformError>)
    requires |obs.probes| == 3
    ensures r.Ok?
    ensures r.value.respondsToSignals <==> obs.existence.sent.Succeeded?
    ensures r.value.lastResponseTimeMs.Some? <==> r.value.respondsToSignals
    ensures r.value.lastResponseTimeMs.Some? ==> r.value.lastResponseTimeMs.value == obs.responseTimeMs
    ensures r.value.signalTestResults.Keys == {0, SIGTERM, SIGCONT}
    ensures forall i :: 0 <= i < 3 ==>
              r.value.signalTestResults[ProbeSignals[i]] == TestSignalResponse(ProbeSignals[i], 200, obs.probes[i])
    ensures r.value.isLikelyUnkillable <==> FailedProbes(ProbeSignals, obs.probes, 200) >= 2
  {
    var responds := TestSignalResponse(0, 500, obs.existence);
    var responseTime: Option<nat> := if responds then Some(obs.responseTimeMs) else None;
    var results: map<int, bool> := map[];
    var i := 0;
    while i < 3
      invariant 0 <= i <= 3
      invariant results.Keys == set j | 0 <= j < i :: ProbeSignals[j]
      invariant forall j :: 0 <= j < i ==> results[ProbeSignals[j]] == TestSignalResponse(ProbeSignals[j], 200, obs.probes[j])
    {
      results := results[ProbeSignals[i] := TestSignalResponse(ProbeSignals[i], 200, obs.probes[i])];
      i := i + 1;
    }
    assert results.Keys == {ProbeSignals[0], ProbeSignals[1], ProbeSignals[2]};
    assert ProbeSignals[0] == 0 && ProbeSignals[1] == SIGTERM && ProbeSignals[2] == SIGCONT;
    var failed := CountFailedProbes(ProbeSignals, obs.probes, 200);
    return Ok(ProcessResponsiveness(responds, responseTime, results, failed >= 2));
  }

  /** `get_context_switches`: macOS exposes no counters, so every figure is zero. */
  function GetContextSwitches(pid: nat): (r: Result<ContextSwitchInfo, PlatformError>)
    ensures r.Ok? && r.value.voluntarySwitches == 0 && r.value.involuntarySwitches == 0
    ensures r.value.switchesPerSecond == 0.0 && !r.value.isHighFrequency
  {
    Ok(ContextSwitchInfo(0, 0, 0.0, false))
  }

  /** The deadlock report for a process stuck in disk sleep. */
  function DeadlockReport(pid: nat, wchan: Option<string>): (d: DeadlockInfo)
    ensures d.involvedProcesses == [pid] && d.detectionConfidence == 0.7
    ensures d.deadlockType == NetworkDeadlock <==> wchan.Some? && NetworkWaitChannel(wchan.value)
    ensures d.deadlockType == NetworkDeadlock || d.deadlockType == IoDeadlock
    ensures d.resourceInfo == wchan.UnwrapOr("unknown")
  {
    DeadlockInfo(
      [pid],
      if wchan.Some? && NetworkWaitChannel(wchan.value) then NetworkDeadlock else IoDeadlock,
      wchan.UnwrapOr("unknown"),
      0.7)
  }

  /** The analyzer and the per-pid history its unkillable verdicts leave behind. */
  class ProcessAnalyzer {
    var responseCache: map<nat, ResponseHistory>

    constructor()
      ensures responseCache == map[]
    {
      responseCache := map[];
    }

    /** `analyze_unkillable` at time `nowMs`: `firstPass` is what the three probes of
        `ProbeSignals` observed with a 1000 ms timeout, `secondPass` what they observed
        with 100 ms when the verdict is "unkillable". */
    method AnalyzeUnkillable(pid: nat, nowMs: nat, firstPass: seq<SignalProbe>, secondPass: seq<SignalProbe>)
      returns (r: Result<bool, PlatformError>)
      requires |firstPass| == 3 && |secondPass| == 3
      modifies this
      ensures r == Ok(FailedProbes(ProbeSignals, firstPass, 1000) >= 2)
      ensures responseCache == old(responseCache)[pid := NextHistory(old(responseCache), pid, nowMs, r.value, secondPass)]
    {
      var failed := CountFailedProbes(ProbeSignals, firstPass, 1000);
      var unkillable := failed >= 2;
      var history := if pid in responseCache then responseCache[pid] else ResponseHistory(nowMs, [], [], false);
      history := history.(lastTestTimeMs := nowMs, isMarkedUnkillable := unkillable);
      if unkillable {
        var before := history.failedSignals;
        var i := 0;
        while i < 3
          invariant 0 <= i <= 3
          invariant history.lastTestTimeMs == nowMs && history.isMarkedUnkillable == unkillable
          invariant history.responseTimes == (if pid in responseCache then responseCache[pid].responseTimes else [])
          invariant history.failedSignals == before + FailedSignals(ProbeSignals[..i], secondPass[..i], 100)
          invariant responseCache == old(responseCache)
        {
          FailedSignalsPrefix(ProbeSignals, secondPass, 100, i);
          AppendAssoc(before, FailedSignals(ProbeSignals[..i], secondPass[..i], 100),
                      if TestSignalResponse(ProbeSignals[i], 100, secondPass[i]) then [] else [ProbeSignals[i]]);
          if !TestSignalResponse(ProbeSignals[i], 100, secondPass[i]) {
            history := history.(failedSignals := history.failedSignals + [ProbeSignals[i]]);
          }
          i := i + 1;
        }
        assert ProbeSignals[..3] == ProbeSignals && secondPass[..3] == secondPass;
      }
      assert history == NextHistory(responseCache, pid, nowMs, unkillable, secondPass);
      responseCache := responseCache[pid := history];
      r := Ok(unkillable);
    }

    /** `detect_deadlock` at time `nowMs`, with `output` what `ps` gave. */
    function DetectDeadlock(pid: nat, output: CommandOutput, nowMs: nat): (r: Result<Option<DeadlockInfo>, PlatformError>)
      reads this
      ensures r.Err? <==> GetProcessSysctlInfo(pid, output).Err?
      ensures r.Err? ==> r.error == GetProcessSysctlInfo(pid, output).error
      ensures r.Ok? && r.value.Some? <==>
                GetProcessSysctlInfo(pid, output).Ok? && GetProcessSysctlInfo(pid, output).value.stateChar == 'D'
                && pid in responseCache && responseCache[pid].isMarkedUnkillable
                && SaturatingSub(nowMs, responseCache[pid].lastTestTimeMs) > 30000
      ensures r.Ok? && r.value.Some? ==> r.value.value == DeadlockReport(pid, GetProcessSysctlInfo(pid, output).value.wchan)
    {
      match GetProcessSysctlInfo(pid, output)
      case Err(e) => Err(e)
      case Ok(info) =>
        if info.stateChar == 'D' && pid in responseCache && responseCache[pid].isMarkedUnkillable
           && SaturatingSub(nowMs, responseCache[pid].lastTestTimeMs) > 30000
        then Ok(Some(DeadlockReport(pid, info.wchan)))
        else Ok(None)
    }

    /** A reported deadlock is always also reported as an I/O wait. */
    lemma DeadlockImpliesIoWait(pid: nat, output: CommandOutput, nowMs: nat)
      requires DetectDeadlock(pid, output, nowMs).Ok? && DetectDeadlock(pid, output, nowMs).value.Some?
      ensures AnalyzeIoWait(pid, output).Ok? && AnalyzeIoWait(pid, output).value.ioOperationsPending == 1
    {
    }
  }

  /** Right after a "killable" verdict, or within 30 s of an "unkillable" one, no
      deadlock is reported for that pid, whatever `ps` says. */
  lemma NoDeadlockRightAfterVerdict(cache: map<nat, ResponseHistory>, pid: nat, testMs: nat, unkillable: bool,
                                    secondPass: seq<SignalProbe>, nowMs: nat)
    requires |secondPass| == 3
    requires !unkillable || nowMs <= testMs + 30000
    ensures var h := NextHistory(cache, pid, testMs, unkillable, secondPass);
            !(h.isMarkedUnkillable && SaturatingSub(nowMs, h.lastTestTimeMs) > 30000)
  {
  }
}
