/** The platform abstraction's shared vocabulary: process status, errors and their
    rendering, signals, the analysis records, and the capability report. */
module Platform {
  import opened Common
  import opened Strings

  datatype ProcessStatus =
    | Running
    | Sleeping
    | Waiting
    | Zombie
    | Stopped
    | Idle
    | UninterruptibleSleep
    | Unkillable
    | UnknownStatus

  /** The status name shown to the user. */
  function StatusName(s: ProcessStatus): string {
    match s
    case Running => "Running"
    case Sleeping => "Sleeping"
    case Waiting => "Waiting"
    case Zombie => "Zombie"
    case Stopped => "Stopped"
    case Idle => "Idle"
    case UninterruptibleSleep => "Uninterruptible"
    case Unkillable => "Unkillable"
    case UnknownStatus => "Unknown"
  }

  /** A state that needs the user's attention. */
  predicate IsProblematic(s: ProcessStatus) {
    s.UninterruptibleSleep? || s.Unkillable? || s.Zombie?
  }

  /** A state in which signals are unlikely to take effect. */
  predicate IsUnkillableStatus(s: ProcessStatus) {
    s.Unkillable? || s.UninterruptibleSleep?
  }

  /** Distinct statuses have distinct names, and the documented names are as shown. */
  lemma StatusNameInjective(a: ProcessStatus, b: ProcessStatus)
    ensures StatusName(a) == StatusName(b) ==> a == b
    ensures StatusName(UninterruptibleSleep) == "Uninterruptible"
    ensures StatusName(Running) == "Running" && StatusName(Zombie) == "Zombie" && StatusName(Stopped) == "Stopped"
  {
  }

  /** Every unkillable status is problematic; the only other problematic one is Zombie. */
  lemma ProblematicIsUnkillableOrZombie(s: ProcessStatus)
    ensures IsUnkillableStatus(s) ==> IsProblematic(s)
    ensures IsProblematic(s) <==> IsUnkillableStatus(s) || s == Zombie
    ensures IsProblematic(s) <==> s in {UninterruptibleSleep, Unkillable, Zombie}
    ensures IsUnkillableStatus(s) <==> s in {Unkillable, UninterruptibleSleep}
  {
  }

  datatype PlatformError =
    | ProcessNotFound(pid: nat)
    | PermissionDenied(message: string)
    | ProcessUnkillable(reason: string)
    | SystemCallFailed(call: string)
    | NotSupported(feature: string)
    | Unknown(code: int, message: string)

  /** The error's `Display` text. */
  function Display(e: PlatformError): string {
    match e
    case ProcessNotFound(pid) => "Process " + NatToString(pid) + " not found"
    case PermissionDenied(msg) => "Permission denied: " + msg
    case ProcessUnkillable(reason) => "Process unkillable: " + reason
    case SystemCallFailed(call) => "System call failed: " + call
    case NotSupported(feature) => "Not supported: " + feature
    case Unknown(code, msg) => "Unknown error " + IntToString(code) + ": " + msg
  }

  lemma NatToStringInjective(a: nat, b: nat)
    requires NatToString(a) == NatToString(b)
    ensures a == b
  {
    NatToStringValue(a);
    NatToStringValue(b);
  }

  lemma IntToStringInjective(a: int, b: int)
    requires IntToString(a) == IntToString(b)
    ensures a == b
  {
    var sa, sb := IntToString(a), IntToString(b);
    if a < 0 && b < 0 {
      assert sa[1..] == NatToString(-a) && sb[1..] == NatToString(-b);
      NatToStringInjective(-a, -b);
    } else if a >= 0 && b >= 0 {
      NatToStringInjective(a, b);
    }
  }

  lemma IntToStringNoColon(i: int)
    ensures ':' !in IntToString(i)
  {
    var s := IntToString(i);
    if i < 0 {
      assert forall k :: 1 <= k < |s| ==> s[k] == NatToString(-i)[k - 1];
    }
    assert forall k :: 0 <= k < |s| ==> s[k] != ':';
  }

  /** Two errors with the same text are the same error: `Display` loses nothing. */
  lemma DisplayInjective(a: PlatformError, b: PlatformError)
    requires Display(a) == Display(b)
    ensures a == b
  {
    match a {
      case ProcessNotFound(p) => DisplayInjectiveNotFound(p, b);
      case ProcessUnkillable(r) => DisplayInjectiveUnkillable(r, b);
      case PermissionDenied(m) => DisplayInjectivePermission(m, b);
      case SystemCallFailed(c) =>
        assert Display(a)[0] == 'S';
        if b.SystemCallFailed? {
          assert Display(a)[20..] == c && Display(b)[20..] == b.call;
        }
      case NotSupported(f) =>
        assert Display(a)[0] == 'N';
        if b.NotSupported? {
          assert Display(a)[15..] == f && Display(b)[15..] == b.feature;
        }
      case Unknown(c, m) => DisplayInjectiveUnknown(c, m, b);
    }
  }

  lemma DisplayInjectiveNotFound(p: nat, b: PlatformError)
    requires Display(ProcessNotFound(p)) == Display(b)
    ensures b == ProcessNotFound(p)
  {
    var s := Display(ProcessNotFound(p));
    assert s[8] == NatToString(p)[0];
    match b {
      case ProcessNotFound(q) =>
        var n := |NatToString(p)|;
        assert s[8..8 + n] == NatToString(p);
        assert Display(b)[8..8 + n] == NatToString(q);
        NatToStringInjective(p, q);
      case ProcessUnkillable(_) =>
      case PermissionDenied(_) =>
      case SystemCallFailed(_) =>
      case NotSupported(_) =>
      case Unknown(_, _) =>
    }
  }

  lemma DisplayInjectiveUnkillable(r: string, b: PlatformError)
    requires Display(ProcessUnkillable(r)) == Display(b)
    ensures b == ProcessUnkillable(r)
  {
    var s := Display(ProcessUnkillable(r));
    assert s[8] == 'u';
    match b {
      case ProcessNotFound(q) =>
      case ProcessUnkillable(r2) => assert s[20..] == r && Display(b)[20..] == r2;
      case PermissionDenied(_) =>
      case SystemCallFailed(_) =>
      case NotSupported(_) =>
      case Unknown(_, _) =>
    }
  }

  lemma DisplayInjectivePermission(m: string, b: PlatformError)
    requires Display(PermissionDenied(m)) == Display(b)
    ensures b == PermissionDenied(m)
  {
    var s := Display(PermissionDenied(m));
    assert s[1] == 'e';
    match b {
      case PermissionDenied(m2) => assert s[19..] == m && Display(b)[19..] == m2;
      case ProcessNotFound(_) =>
      case ProcessUnkillable(_) =>
      case SystemCallFailed(_) =>
      case NotSupported(_) =>
      case Unknown(_, _) =>
    }
  }

  lemma DisplayInjectiveUnknown(c: int, m: string, b: PlatformError)
    requires Display(Unknown(c, m)) == Display(b)
    ensures b == Unknown(c, m)
  {
    var s := Display(Unknown(c, m));
    assert s[0] == 'U' && s[1] == 'n';
    match b {
      case Unknown(c2, m2) => UnknownParts(c, m, c2, m2);
      case ProcessNotFound(_) =>
      case ProcessUnkillable(_) =>
      case PermissionDenied(_) =>
      case SystemCallFailed(_) =>
      case NotSupported(_) =>
    }
  }

  lemma UnknownParts(c: int, m: string, c2: int, m2: string)
    requires Display(Unknown(c, m)) == Display(Unknown(c2, m2))
    ensures c == c2 && m == m2
  {
    var x, y := IntToString(c), IntToString(c2);
    var u, v := x + (": " + m), y + (": " + m2);
    IntToStringNoColon(c);
    IntToStringNoColon(c2);
    assert Display(Unknown(c, m)) == "Unknown error " + u;
    assert Display(Unknown(c2, m2)) == "Unknown error " + v;
    assert u == Display(Unknown(c, m))[14..] == v;
    SplitAtFirstColon(x, ": " + m, y, ": " + m2);
    IntToStringInjective(c, c2);
    assert u[|x| + 2..] == m;
    assert v[|y| + 2..] == m2;
  }

  /** Two splits of one string at a first ':' are the same split. */
  lemma SplitAtFirstColon(x: string, u: string, y: string, v: string)
    requires ':' !in x && ':' !in y
    requires u != [] && u[0] == ':' && v != [] && v[0] == ':'
    requires x + u == y + v
    ensures x == y
  {
    IndexOfCharAt(x, u, ':');
    IndexOfCharAt(y, v, ':');
    assert x == (x + u)[..|x|] && y == (y + v)[..|y|];
  }

  /** The renderings the platform tests expect. */
  lemma DisplayExamples()
    ensures Display(ProcessNotFound(123)) == "Process 123 not found"
    ensures Display(PermissionDenied("test")) == "Permission denied: test"
    ensures Display(ProcessUnkillable("kernel")) == "Process unkillable: kernel"
  {
    assert NatToString(123) == NatToString(12) + [DigitChar(3)];
    assert NatToString(12) == NatToString(1) + [DigitChar(2)];
  }

  /** One process as the platform layer reports it. */
  datatype ProcessInfo = ProcessInfo(
    pid: nat,
    name: string,
    cpuUsage: real,
    memoryBytes: nat,
    virtualMemoryBytes: nat,
    status: ProcessStatus,
    parentPid: Option<nat>,
    threadCount: nat,
    runTimeSeconds: nat,
    userTimeSeconds: real,
    systemTimeSeconds: real,
    executablePath: Option<string>,
    commandLine: seq<string>,
    environment: map<string, string>,
    ioWaitTimeMs: nat,
    contextSwitches: nat,
    minorFaults: nat,
    majorFaults: nat,
    priority: int,
    isUnkillable: bool,
    lastSignalResponseMs: Option<nat>)

  /** The signals the process manager can send. */
  datatype Signal = Terminate | Kill | Stop | Continue | Interrupt

  datatype DeadlockType = ResourceDeadlock | IoDeadlock | NetworkDeadlock | UnknownDeadlock

  /** One frame of a sampled stack. */
  datatype StackFrame = StackFrame(
    address: nat,
    symbol: Option<string>,
    moduleName: Option<string>,
    file: Option<string>,
    line: Option<nat>,
    offset: Option<nat>)

  /** A sampled stack of one thread; `frames` starts at the innermost call. */
  datatype StackTrace = StackTrace(
    pid: nat,
    threadId: Option<nat>,
    frames: seq<StackFrame>,
    sampleDurationMs: nat,
    isComplete: bool)

  datatype ProcessState = ProcessState(
    stateChar: char,
    wchan: Option<string>,
    flags: nat,
    nice: int,
    numThreads: nat,
    tgid: nat,
    blockedSignals: nat,
    pendingSignals: nat)

  datatype IoWaitInfo = IoWaitInfo(
    totalWaitTimeMs: nat,
    currentWaitOperation: Option<string>,
    blockedOnDevice: Option<string>,
    ioOperationsPending: nat)

  datatype ProcessResponsiveness = ProcessResponsiveness(
    respondsToSignals: bool,
    lastResponseTimeMs: Option<nat>,
    signalTestResults: map<int, bool>,
    isLikelyUnkillable: bool)

  datatype ContextSwitchInfo = ContextSwitchInfo(
    voluntarySwitches: nat,
    involuntarySwitches: nat,
    switchesPerSecond: real,
    isHighFrequency: bool)

  datatype DeadlockInfo = DeadlockInfo(
    involvedProcesses: seq<nat>,
    deadlockType: DeadlockType,
    resourceInfo: string,
    detectionConfidence: real)

  datatype PlatformCapabilities = PlatformCapabilities(
    canKillProcesses: bool,
    canSuspendProcesses: bool,
    canSetPriority: bool,
    hasTemperatureSensors: bool,
    supportsProcessGroups: bool,
    requiresElevation: bool)

  /** The capabilities assumed on an unrecognised platform. */
  function DefaultCapabilities(): (c: PlatformCapabilities)
    ensures c.canKillProcesses && c.canSuspendProcesses && c.canSetPriority
    ensures !c.hasTemperatureSensors && !c.requiresElevation
  {
    PlatformCapabilities(true, true, true, false, true, false)
  }

  /** The capabilities reported on macOS. */
  function MacOSCapabilities(): (c: PlatformCapabilities)
    ensures c.canKillProcesses && c.canSuspendProcesses && c.canSetPriority
    ensures c.hasTemperatureSensors && c.supportsProcessGroups && !c.requiresElevation
  {
    PlatformCapabilities(true, true, true, true, true, false)
  }

  /** macOS differs from the default only by reporting temperature sensors. */
  lemma MacOSIsDefaultWithSensors()
    ensures MacOSCapabilities() == DefaultCapabilities().(hasTemperatureSensors := true)
    ensures MacOSCapabilities() != DefaultCapabilities()
  {
  }
}
