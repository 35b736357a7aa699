/** The hardware monitor (monitors/hardware/src/hardware_monitor.rs): temperature sensors
    from the component list, their classification, cleaned names and display order, the
    thermal state they imply, and the two-second cache of the whole reading. Temperatures
    are reals; instants are milliseconds; the component list, the `sysctl` run and the CPU
    frequencies are inputs. */
module HardwareMonitor {
  import opened Common
  import opened Seqs
  import opened Strings
  import opened Sorting
  import opened Posix

  /** `SensorType`, whose derived `Ord` follows the declaration order. */
  datatype SensorType = CpuCore | CpuPackage | Gpu | Memory | Storage | Battery | Other

  datatype ThermalState = Normal | Warm | Hot | Throttling

  datatype TemperatureSensor = TemperatureSensor(
    name: string,
    celsius: real,
    sensorType: SensorType,
    isCritical: bool)

  datatype PowerMetrics = PowerMetrics(cpuWatts: Option<real>, gpuWatts: Option<real>, totalWatts: Option<real>)

  datatype HardwareMetrics = HardwareMetrics(
    temperatures: seq<TemperatureSensor>,
    cpuFrequencyMhz: nat,
    thermalState: ThermalState,
    powerMetrics: Option<PowerMetrics>)

  /** One entry of the component list: its label and temperature. */
  datatype Component = Component(name: string, temperature: real)

  /** How long a reading is served from the cache. */
  const CacheDurationMs: nat := 2_000

  /** Position of a sensor type in the declaration order. */
  function Rank(t: SensorType): (r: nat)
    ensures r <= 6
  {
    match t
    case CpuCore => 0
    case CpuPackage => 1
    case Gpu => 2
    case Memory => 3
    case Storage => 4
    case Battery => 5
    case Other => 6
  }

  lemma RankInjective(a: SensorType, b: SensorType)
    requires Rank(a) == Rank(b)
    ensures a == b
  {
  }

  // ---------------------------------------------------------------------------
  // Classification and names

  /** The type `collect_temperatures` gives a label: the first of "cpu", "gpu",
      "memory" or "ram", "ssd" or "disk", "battery" its lower-cased form contains. */
  function Classify(text: string): (t: SensorType)
    ensures t != CpuPackage
    ensures t == CpuCore <==> Contains(ToLower(text), "cpu")
    ensures t == Other <==> !Contains(ToLower(text), "cpu") && !Contains(ToLower(text), "gpu")
                            && !Contains(ToLower(text), "memory") && !Contains(ToLower(text), "ram")
                            && !Contains(ToLower(text), "ssd") && !Contains(ToLower(text), "disk")
                            && !Contains(ToLower(text), "battery")
  {
    var s := ToLower(text);
    if Contains(s, "cpu") then CpuCore
    else if Contains(s, "gpu") then Gpu
    else if Contains(s, "memory") || Contains(s, "ram") then Memory
    else if Contains(s, "ssd") || Contains(s, "disk") then Storage
    else if Contains(s, "battery") then Battery
    else Other
  }

  /** The earlier keyword wins: a label naming both the CPU and the GPU is a CPU sensor,
      and one naming only the GPU is a GPU sensor. */
  lemma ClassifyCpuBeforeGpu()
    ensures Classify("CPU/GPU") == CpuCore
    ensures Classify("GPU") == Gpu
  {
    assert ToLower("CPU/GPU")[..3] == "cpu";
    assert ToLower("GPU") == "gpu";
    ContainsSameLength("gpu", "cpu");
  }

  /** "RAM" is a memory sensor and "SSD" a storage sensor. */
  lemma ClassifyMemoryAndStorage()
    ensures Classify("RAM") == Memory
    ensures Classify("SSD") == Storage
  {
    assert ToLower("RAM") == "ram" && ToLower("SSD") == "ssd";
    ContainsHead("ram", "cpu");
    ContainsHead("ram", "gpu");
    ContainsShorter("ram", "memory");
    ContainsHead("ssd", "cpu");
    ContainsHead("ssd", "gpu");
    ContainsShorter("ssd", "memory");
    ContainsHead("ssd", "ram");
  }

  /** A label naming no keyword is "Other". */
  lemma ClassifyUnknown()
    ensures Classify("Fan") == Other
  {
    assert ToLower("Fan") == "fan";
    ContainsHead("fan", "cpu");
    ContainsHead("fan", "gpu");
    ContainsShorter("fan", "memory");
    ContainsHead("fan", "ram");
    ContainsHead("fan", "ssd");
    ContainsShorter("fan", "disk");
    ContainsShorter("fan", "battery");
  }

  /** The SMC prefixes "TC", "TG", "TB", "TM" and "TS" spelled out as words, in that order. */
  function SpellPrefixes(s: string): (r: string)
    ensures (!Contains(s, "TC") && !Contains(s, "TG") && !Contains(s, "TB") && !Contains(s, "TM")
             && !Contains(s, "TS")) ==> r == s
  {
    Replace(Replace(Replace(Replace(Replace(s, "TC", "Core"), "TG", "GPU"), "TB", "Battery"), "TM", "Memory"), "TS", "Storage")
  }

  /** `clean_sensor_name`: underscores become spaces, then the SMC prefixes become words, and
      the result is trimmed. */
  function CleanSensorName(name: string): (r: string)
    ensures '_' !in r
  {
    var spaced := Replace(name, "_", " ");
    ReplaceRemovesChar(name, '_', " ");
    var worded := SpellPrefixes(spaced);
    ReplaceKeepsAbsent(spaced, "TC", "Core", '_');
    ReplaceKeepsAbsent(Replace(spaced, "TC", "Core"), "TG", "GPU", '_');
    ReplaceKeepsAbsent(Replace(Replace(spaced, "TC", "Core"), "TG", "GPU"), "TB", "Battery", '_');
    ReplaceKeepsAbsent(Replace(Replace(Replace(spaced, "TC", "Core"), "TG", "GPU"), "TB", "Battery"), "TM", "Memory", '_');
    ReplaceKeepsAbsent(Replace(Replace(Replace(Replace(spaced, "TC", "Core"), "TG", "GPU"), "TB", "Battery"), "TM", "Memory"), "TS", "Storage", '_');
    TrimKeepsAbsent(worded, '_');
    Trim(worded)
  }

  /** Replacing every single-character occurrence of `c` by text without `c` leaves none. */
  lemma {:induction false} ReplaceRemovesChar(s: string, c: char, to: string)
    requires c !in to
    ensures c !in Replace(s, [c], to)
    decreases |s|
  {
    if |s| >= 1 {
      if s[..1] == [c] {
        ReplaceRemovesChar(s[1..], c, to);
      } else {
        assert s[0] != c;
        ReplaceRemovesChar(s[1..], c, to);
      }
    }
  }

  /** Replacing with text free of `c` introduces no `c`. */
  lemma {:induction false} ReplaceKeepsAbsent(s: string, from: string, to: string, c: char)
    requires from != [] && c !in s && c !in to
    ensures c !in Replace(s, from, to)
    decreases |s|
  {
    if |s| >= |from| {
      if s[..|from|] == from {
        assert forall k :: 0 <= k < |s| - |from| ==> s[|from|..][k] == s[k + |from|];
        ReplaceKeepsAbsent(s[|from|..], from, to, c);
      } else {
        assert forall k :: 0 <= k < |s| - 1 ==> s[1..][k] == s[k + 1];
        ReplaceKeepsAbsent(s[1..], from, to, c);
      }
    }
  }

  /** Trimming only removes characters. */
  lemma TrimKeepsAbsent(s: string, c: char)
    requires c !in s
    ensures c !in Trim(s)
  {
    var t := TrimStart(s);
    SliceKeepsAbsent(s, |s| - |t|, |s|, c);
    SliceKeepsAbsent(t, 0, |TrimEnd(t)|, c);
  }

  lemma SliceKeepsAbsent(s: string, lo: nat, hi: nat, c: char)
    requires lo <= hi <= |s| && c !in s
    ensures c !in s[lo..hi]
  {
    forall k | 0 <= k < hi - lo
      ensures s[lo..hi][k] != c
    {
      assert s[lo..hi][k] == s[lo + k];
    }
  }

  /** The name-cleaning examples: "TC0P" reads "Core0P", "TB_1" reads "Battery 1", and
      surrounding underscores are dropped. */
  lemma CleanCoreName()
    ensures CleanSensorName("TC0P") == "Core0P"
  {
    ContainsHead("TC0P", "_");
    assert Replace("TC0P", "_", " ") == "TC0P";
    CoreSpelled();
    TrimUntouched("Core0P");
  }

  lemma CoreSpelled()
    ensures SpellPrefixes("TC0P") == "Core0P"
  {
    assert Replace("TC0P"[2..], "TC", "Core") == "0P";
    assert Replace("TC0P", "TC", "Core") == "Core0P";
    ContainsHead("Core0P", "TG");
    ContainsHead("Core0P", "TB");
    ContainsHead("Core0P", "TM");
    ContainsHead("Core0P", "TS");
  }

  lemma CleanBatteryName()
    ensures CleanSensorName("TB_1") == "Battery 1"
  {
    BatterySpaced();
    BatterySpelled();
    TrimUntouched("Battery 1");
  }

  lemma BatterySpaced()
    ensures Replace("TB_1", "_", " ") == "TB 1"
  {
    assert Replace("TB_1"[3..], "_", " ") == "1";
    assert Replace("TB_1"[2..], "_", " ") == " 1";
    assert Replace("TB_1"[1..], "_", " ") == "B 1";
  }

  lemma BatterySpelled()
    ensures SpellPrefixes("TB 1") == "Battery 1"
  {
    assert !Contains("TB 1", "TC") && !Contains("TB 1", "TG") by {
      ContainsHead("TB 1"[1..], "TC");
      ContainsHead("TB 1"[1..], "TG");
      assert "TB 1"[..2] != "TC" && "TB 1"[..2] != "TG";
    }
    assert Replace("TB 1", "TB", "Battery") == "Battery 1" by {
      assert Replace("TB 1"[2..], "TB", "Battery") == " 1";
    }
    ContainsHead("Battery 1", "TM");
    ContainsHead("Battery 1", "TS");
  }

  lemma CleanPaddedName()
    ensures CleanSensorName("_GPU_") == "GPU"
  {
    PaddedSpaced();
    assert SpellPrefixes(" GPU ") == " GPU " by {
      ContainsHead(" GPU ", "TC");
      ContainsHead(" GPU ", "TG");
      ContainsHead(" GPU ", "TB");
      ContainsHead(" GPU ", "TM");
      ContainsHead(" GPU ", "TS");
    }
    PaddedTrimmed();
  }

  lemma PaddedSpaced()
    ensures Replace("_GPU_", "_", " ") == " GPU "
  {
    assert Replace("_GPU_"[4..], "_", " ") == " ";
    assert Replace("_GPU_"[3..], "_", " ") == "U ";
    assert Replace("_GPU_"[2..], "_", " ") == "PU ";
    assert Replace("_GPU_"[1..], "_", " ") == "GPU ";
  }

  lemma PaddedTrimmed()
    ensures Trim(" GPU ") == "GPU"
  {
    assert " GPU " == [' '] + "GPU" + [' '];
    TrimPadded("GPU");
  }

  // ---------------------------------------------------------------------------
  // Collecting the sensors

  /** A reading `collect_temperatures` keeps: above 0 and at most 150 degrees. */
  predicate InRange(t: real) {
    0.0 < t <= 150.0
  }

  /** The sensor a component gives, if its reading is in range; critical above 85. */
  function SensorOf(c: Component): (s: Option<TemperatureSensor>)
    ensures s.Some? <==> InRange(c.temperature)
    ensures s.Some? ==> s.value == TemperatureSensor(CleanSensorName(c.name), c.temperature,
                                                     Classify(c.name), c.temperature > 85.0)
  {
    if c.temperature <= 0.0 || c.temperature > 150.0 then None
    else Some(TemperatureSensor(CleanSensorName(c.name), c.temperature, Classify(c.name), c.temperature > 85.0))
  }

  /** `get_cpu_temp_fallback`'s map from the thermal level to an approximate temperature. */
  function LevelTemperature(level: int): (t: real)
    ensures 0 <= level <= 20 ==> t == 45.0
    ensures 21 <= level <= 40 ==> t == 55.0
    ensures 41 <= level <= 60 ==> t == 65.0
    ensures 61 <= level <= 80 ==> t == 75.0
    ensures 81 <= level <= 100 ==> t == 85.0
    ensures level < 0 || level > 100 ==> t == 95.0
  {
    if 0 <= level <= 20 then 45.0
    else if 21 <= level <= 40 then 55.0
    else if 41 <= level <= 60 then 65.0
    else if 61 <= level <= 80 then 75.0
    else if 81 <= level <= 100 then 85.0
    else 95.0
  }

  /** Within 0..100 a higher level never maps to a lower temperature, and every level maps
      to a reading `collect_temperatures` would keep, below the critical mark except past 80. */
  lemma LevelTemperatureMonotone(a: int, b: int)
    requires 0 <= a <= b <= 100
    ensures LevelTemperature(a) <= LevelTemperature(b)
    ensures InRange(LevelTemperature(a)) && (LevelTemperature(a) > 85.0 <==> false)
    ensures LevelTemperature(b) == 85.0 <==> b > 80
  {
  }

  /** `get_cpu_temp_fallback` given the run of `sysctl -n machdep.xcpm.cpu_thermal_level`:
      whatever the exit status, output that trims to an `i32` gives a temperature. */
  function FallbackTemperature(run: CommandOutput): (t: Option<real>)
    ensures run.SpawnFailed? ==> t.None?
    ensures run.Spawned? ==> (t.Some? <==> ParseSigned(Trim(run.stdout), I32_MIN, I32_MAX).Some?)
    ensures t.Some? ==> InRange(t.value) && t.value >= 45.0
  {
    match run
    case SpawnFailed(_) => None
    case Spawned(stdout) =>
      match ParseSigned(Trim(stdout), I32_MIN, I32_MAX)
      case Some(level) => Some(LevelTemperature(level))
      case None => None
  }

  /** The sort key of the display order: type first, hottest first within a type. With every
      reading in (0, 150], a step in rank outweighs any difference of temperature. */
  function DisplayKey(s: TemperatureSensor): real {
    s.celsius - 1000.0 * (Rank(s.sensorType) as real)
  }

  /** The order `sort_by` establishes: by type, then by temperature, hottest first. */
  predicate InDisplayOrder(a: TemperatureSensor, b: TemperatureSensor) {
    Rank(a.sensorType) < Rank(b.sensorType)
    || (a.sensorType == b.sensorType && a.celsius >= b.celsius)
  }

  /** Sorting on `DisplayKey` is sorting by the comparator of `collect_temperatures`. */
  lemma DisplayKeyOrder(xs: seq<TemperatureSensor>)
    requires forall k :: 0 <= k < |xs| ==> InRange(xs[k].celsius)
    requires SortedDesc(xs, DisplayKey)
    ensures forall i, j :: 0 <= i < j < |xs| ==> InDisplayOrder(xs[i], xs[j])
  {
    forall i, j | 0 <= i < j < |xs| ensures InDisplayOrder(xs[i], xs[j]) {
      assert DisplayKey(xs[i]) >= DisplayKey(xs[j]);
      var ri, rj := Rank(xs[i].sensorType), Rank(xs[j].sensorType);
      assert 1000.0 * (rj as real - ri as real) >= xs[j].celsius - xs[i].celsius > -150.0;
      if ri == rj {
        RankInjective(xs[i].sensorType, xs[j].sensorType);
      }
    }
  }

  /** The fallback `CPU Package` sensor. */
  function FallbackSensor(t: real): TemperatureSensor {
    TemperatureSensor("CPU Package", t, CpuPackage, t > 85.0)
  }

  /** The sensors before sorting: those the components give, or, when there are none, the
      fallback sensor if the `sysctl` reading parsed. */
  function UnsortedSensors(components: seq<Component>, fallback: CommandOutput): seq<TemperatureSensor> {
    var found := FilterMap(components, SensorOf);
    if found != [] then found
    else if FallbackTemperature(fallback).Some? then [FallbackSensor(FallbackTemperature(fallback).value)]
    else []
  }

  /** `collect_temperatures`: the unsorted sensors in display order. */
  function CollectedSensors(components: seq<Component>, fallback: CommandOutput): seq<TemperatureSensor> {
    SortDesc(UnsortedSensors(components, fallback), DisplayKey)
  }

  /** Every collected reading is in range and critical exactly above 85 degrees. */
  lemma UnsortedSensorsInRange(components: seq<Component>, fallback: CommandOutput, s: TemperatureSensor)
    requires s in UnsortedSensors(components, fallback)
    ensures InRange(s.celsius) && (s.isCritical <==> s.celsius > 85.0)
  {
    if FilterMap(components, SensorOf) != [] {
      FilterMapMember(components, SensorOf, s);
    }
  }

  /** What `collect_temperatures` returns: the sensors of the in-range components (or the
      fallback), each in range and critical exactly above 85, in display order. */
  lemma CollectedSensorsProperties(components: seq<Component>, fallback: CommandOutput)
    ensures var r := CollectedSensors(components, fallback);
            multiset(r) == multiset(UnsortedSensors(components, fallback))
            && (forall k :: 0 <= k < |r| ==> InRange(r[k].celsius) && (r[k].isCritical <==> r[k].celsius > 85.0))
            && (forall i, j :: 0 <= i < j < |r| ==> InDisplayOrder(r[i], r[j]))
  {
    var u := UnsortedSensors(components, fallback);
    var r := CollectedSensors(components, fallback);
    forall k | 0 <= k < |r| ensures InRange(r[k].celsius) && (r[k].isCritical <==> r[k].celsius > 85.0) {
      assert r[k] in multiset(u);
      UnsortedSensorsInRange(components, fallback, r[k]);
    }
    DisplayKeyOrder(r);
  }

  /** Every in-range component is reported, under its cleaned name and classified type. */
  lemma ComponentReported(components: seq<Component>, fallback: CommandOutput, k: nat)
    requires k < |components| && InRange(components[k].temperature)
    ensures SensorOf(components[k]).value in CollectedSensors(components, fallback)
  {
    var s := SensorOf(components[k]).value;
    FilterMapMember(components, SensorOf, s);
    var u := UnsortedSensors(components, fallback);
    assert s in multiset(u);
  }

  /** The loop of `collect_temperatures` over the components, the fallback, then the sort. */
  method CollectTemperatures(components: seq<Component>, fallback: CommandOutput) returns (sensors: seq<TemperatureSensor>)
    ensures sensors == CollectedSensors(components, fallback)
  {
    sensors := [];
    var i := 0;
    while i < |components|
      invariant i <= |components|
      invariant sensors == FilterMap(components[..i], SensorOf)
    {
      FilterMapPrefix(components, i, SensorOf);
      var c := components[i];
      i := i + 1;
      if c.temperature <= 0.0 || c.temperature > 150.0 {
        continue;
      }
      sensors := sensors + [TemperatureSensor(CleanSensorName(c.name), c.temperature, Classify(c.name), c.temperature > 85.0)];
    }
    assert components[..i] == components;
    assert sensors == FilterMap(components, SensorOf);
    if sensors == [] {
      var t := FallbackTemperature(fallback);
      if t.Some? {
        sensors := [FallbackSensor(t.value)];
      }
    }
    assert sensors == UnsortedSensors(components, fallback);
    sensors := SortDesc(sensors, DisplayKey);
  }

  // ---------------------------------------------------------------------------
  // Thermal state

  predicate IsCpuSensor(s: TemperatureSensor) {
    s.sensorType == CpuCore || s.sensorType == CpuPackage
  }

  /** The highest CPU-type reading, 0 when there is none. */
  function MaxCpuTemperature(sensors: seq<TemperatureSensor>): (t: real)
    ensures forall k :: 0 <= k < |sensors| && IsCpuSensor(sensors[k]) ==> sensors[k].celsius <= t
    ensures (exists k :: 0 <= k < |sensors| && IsCpuSensor(sensors[k]) && sensors[k].celsius == t)
            || (t == 0.0 && forall k :: 0 <= k < |sensors| ==> !IsCpuSensor(sensors[k]))
  {
    if sensors == [] then 0.0
    else
      var rest := MaxCpuTemperature(sensors[1..]);
      var restHasCpu := exists k :: 0 <= k < |sensors[1..]| && IsCpuSensor(sensors[1..][k]);
      assert forall k :: 1 <= k < |sensors| ==> sensors[k] == sensors[1..][k - 1];
      if !IsCpuSensor(sensors[0]) then rest
      else if !restHasCpu || sensors[0].celsius > rest then sensors[0].celsius
      else rest
  }

  /** The band of the hottest CPU reading: 85 and above throttling, 75 hot, 60 warm. */
  function StateFor(t: real): (state: ThermalState)
    ensures state == Throttling <==> t >= 85.0
    ensures state == Hot <==> 75.0 <= t < 85.0
    ensures state == Warm <==> 60.0 <= t < 75.0
    ensures state == Normal <==> t < 60.0
  {
    if t >= 85.0 then Throttling
    else if t >= 75.0 then Hot
    else if t >= 60.0 then Warm
    else Normal
  }

  function StateRank(s: ThermalState): nat {
    match s
    case Normal => 0
    case Warm => 1
    case Hot => 2
    case Throttling => 3
  }

  /** A hotter CPU never gives a milder state. */
  lemma StateMonotone(t1: real, t2: real)
    requires t1 <= t2
    ensures StateRank(StateFor(t1)) <= StateRank(StateFor(t2))
  {
  }

  /** `determine_thermal_state`. */
  function DetermineThermalState(sensors: seq<TemperatureSensor>): ThermalState {
    StateFor(MaxCpuTemperature(sensors))
  }

  /** With no CPU sensor the state is normal; otherwise the state is throttling exactly
      when some CPU sensor reads 85 or more. */
  lemma ThermalStateFromCpuSensors(sensors: seq<TemperatureSensor>)
    ensures (forall k :: 0 <= k < |sensors| ==> !IsCpuSensor(sensors[k])) ==> DetermineThermalState(sensors) == Normal
    ensures DetermineThermalState(sensors) == Throttling <==>
              exists k :: 0 <= k < |sensors| && IsCpuSensor(sensors[k]) && sensors[k].celsius >= 85.0
    ensures DetermineThermalState(sensors) == Normal <==>
              forall k :: 0 <= k < |sensors| && IsCpuSensor(sensors[k]) ==> sensors[k].celsius < 60.0
  {
  }

  // ---------------------------------------------------------------------------
  // Display maps

  /** `SensorType::icon`. */
  function Icon(t: SensorType): (icon: string)
    ensures icon == "cpu" <==> t == CpuCore || t == CpuPackage
  {
    match t
    case CpuCore => "cpu"
    case CpuPackage => "cpu"
    case Gpu => "gpu.card"
    case Memory => "memorychip"
    case Storage => "internaldrive"
    case Battery => "battery.100"
    case Other => "thermometer"
  }

  /** `SensorType::display_name`. */
  function DisplayName(t: SensorType): string {
    match t
    case CpuCore => "CPU Core"
    case CpuPackage => "CPU Package"
    case Gpu => "GPU"
    case Memory => "Memory"
    case Storage => "Storage"
    case Battery => "Battery"
    case Other => "Other"
  }

  /** Distinct types have distinct display names. */
  lemma DisplayNameInjective(a: SensorType, b: SensorType)
    requires DisplayName(a) == DisplayName(b)
    ensures a == b
  {
  }

  /** `ThermalState::color`: green, yellow, orange and red as the state worsens. */
  function Color(s: ThermalState): (color: string)
    ensures color == ["green", "yellow", "orange", "red"][StateRank(s)]
  {
    match s
    case Normal => "green"
    case Warm => "yellow"
    case Hot => "orange"
    case Throttling => "red"
  }

  /** `ThermalState::description`. */
  function Description(s: ThermalState): (text: string)
    ensures text == ["Normal", "Warm", "Hot", "Throttling"][StateRank(s)]
  {
    match s
    case Normal => "Normal"
    case Warm => "Warm"
    case Hot => "Hot"
    case Throttling => "Throttling"
  }

  // ---------------------------------------------------------------------------
  // The monitor and its cache

  /** A fresh reading: the collected sensors, the first CPU's frequency (0 when the list is
      empty), the thermal state, and no power metrics. */
  function FreshMetrics(components: seq<Component>, fallback: CommandOutput, cpuFrequencies: seq<nat>): (m: HardwareMetrics)
    ensures m.temperatures == CollectedSensors(components, fallback)
    ensures m.cpuFrequencyMhz == if cpuFrequencies == [] then 0 else cpuFrequencies[0]
    ensures m.thermalState == DetermineThermalState(m.temperatures)
    ensures m.powerMetrics == None
  {
    var temperatures := CollectedSensors(components, fallback);
    HardwareMetrics(temperatures, if cpuFrequencies == [] then 0 else cpuFrequencies[0],
                    DetermineThermalState(temperatures), None)
  }

  /** `HardwareMonitor`: the cached reading and when it was taken. */
  class Monitor {
    var lastUpdate: nat
    var cachedMetrics: Option<HardwareMetrics>

    /** `HardwareMonitor::new` at instant `now`: nothing cached. */
    constructor (now: nat)
      ensures lastUpdate == now && cachedMetrics == None
    {
      lastUpdate := now;
      cachedMetrics := None;
    }

    /** `get_metrics` at instant `now`, given what the component list, the `sysctl` run and
        the CPU list would report: the cached reading while it is younger than two seconds,
        otherwise a fresh reading, which becomes the cache. */
    method GetMetrics(now: nat, components: seq<Component>, fallback: CommandOutput, cpuFrequencies: seq<nat>)
      returns (m: HardwareMetrics)
      modifies this
      ensures old(cachedMetrics).Some? && SaturatingSub(now, old(lastUpdate)) < CacheDurationMs ==>
                m == old(cachedMetrics).value && cachedMetrics == old(cachedMetrics) && lastUpdate == old(lastUpdate)
      ensures !(old(cachedMetrics).Some? && SaturatingSub(now, old(lastUpdate)) < CacheDurationMs) ==>
                m == FreshMetrics(components, fallback, cpuFrequencies) && cachedMetrics == Some(m) && lastUpdate == now
    {
      if cachedMetrics.Some? && SaturatingSub(now, lastUpdate) < CacheDurationMs {
        return cachedMetrics.value;
      }
      var temperatures := CollectTemperatures(components, fallback);
      var frequency := if cpuFrequencies == [] then 0 else cpuFrequencies[0];
      m := HardwareMetrics(temperatures, frequency, DetermineThermalState(temperatures), None);
      cachedMetrics := Some(m);
      lastUpdate := now;
    }
  }

  /** A call that refreshes, followed by another within two seconds, returns the same
      reading twice, whatever the hardware reports in between. */
  method CachedWithinTwoSeconds(m: Monitor, now: nat, components: seq<Component>, fallback: CommandOutput, cpus: seq<nat>,
                                later: nat, components2: seq<Component>, fallback2: CommandOutput, cpus2: seq<nat>)
    returns (first: HardwareMetrics, second: HardwareMetrics)
    requires m.cachedMetrics == None || SaturatingSub(now, m.lastUpdate) >= CacheDurationMs
    requires now <= later < now + CacheDurationMs
    modifies m
    ensures second == first
  {
    first := m.GetMetrics(now, components, fallback, cpus);
    second := m.GetMetrics(later, components2, fallback2, cpus2);
  }
}
