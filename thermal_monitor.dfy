/** The CPU thermal monitor (monitors/cpu/src/thermal_monitor.rs): sensors read from the
    SMC, their simulated drift, throttling detection from the CPU frequency, the bounded
    event history and the per-sensor temperature history. Temperatures are reals;
    `Instant`s and `SystemTime`s are explicit millisecond counts; the SMC properties, the
    `sysctl` runs and the random drift are inputs. */
module ThermalMonitor {
  import opened Common
  import opened Seqs
  import opened Strings
  import opened Posix
  import opened CpuThrottler

  datatype ThermalLocation =
    | CpuCore(core: nat)
    | CpuPackage
    | Gpu
    | Memory
    | PowerSupply
    | Ambient
    | Battery
    | OtherLocation(description: string)

  datatype SensorType = Digital | Analog | Diode | Thermistor | UnknownType

  datatype ThermalSensor = ThermalSensor(
    name: string,
    location: ThermalLocation,
    current: real,
    maxTemp: real,
    critical: real,
    sensorType: SensorType,
    valid: bool)

  /** `ThrottlingLevel`; `NotThrottled` is the source's `ThrottlingLevel::None`. */
  datatype ThrottlingLevel = NotThrottled | Light | Moderate | Heavy | Critical

  /** `ThermalThrottlingEvent`; the timestamp is wall-clock milliseconds. */
  datatype ThrottlingEvent = ThrottlingEvent(
    timestampMs: nat,
    sensorName: string,
    temperature: real,
    level: ThrottlingLevel,
    durationMs: Option<nat>,
    affectedProcesses: seq<nat>,
    frequencyBefore: Option<nat>,
    frequencyAfter: Option<nat>)

  datatype ThermalConfig = ThermalConfig(
    pollingIntervalMs: nat,
    thresholdCelsius: real,
    detectionEnabled: bool,
    blacklist: seq<string>,
    alertOnHighTemperature: bool,
    maxHistoryEntries: nat)

  /** `ThermalConfig::default()`. */
  const DefaultConfig := ThermalConfig(1000, 80.0, true, [], true, 1000)

  /** The kinds of error the monitor reports: a command that could not run, or output
      that does not parse. */
  datatype IoError = CommandFailed | InvalidData

  // ---------------------------------------------------------------------------
  // Throttling levels

  /** How severe a level is, in declaration order. */
  function Severity(level: ThrottlingLevel): (rank: nat)
    ensures rank <= 4
    ensures rank == 0 <==> level == NotThrottled
  {
    match level
    case NotThrottled => 0
    case Light => 1
    case Moderate => 2
    case Heavy => 3
    case Critical => 4
  }

  /** The band a frequency ratio (current over baseline) falls in. */
  function LevelForRatio(ratio: real): (level: ThrottlingLevel)
    ensures level == Critical <==> ratio < 0.5
    ensures level == Heavy <==> 0.5 <= ratio < 0.7
    ensures level == Moderate <==> 0.7 <= ratio < 0.85
    ensures level == Light <==> 0.85 <= ratio < 0.95
    ensures level == NotThrottled <==> 0.95 <= ratio
  {
    if ratio < 0.5 then Critical
    else if ratio < 0.7 then Heavy
    else if ratio < 0.85 then Moderate
    else if ratio < 0.95 then Light
    else NotThrottled
  }

  /** A lower frequency ratio never gives a milder level. */
  lemma LevelMonotone(r1: real, r2: real)
    requires r1 <= r2
    ensures Severity(LevelForRatio(r2)) <= Severity(LevelForRatio(r1))
  {
  }

  /** The level `detect_thermal_throttling` assigns to a current frequency against the
      baseline. With a zero baseline the f32 ratio is infinite or NaN, which is below none
      of the bands, so there is no throttling. */
  function FrequencyLevel(current: nat, baseline: nat): ThrottlingLevel {
    if baseline == 0 then NotThrottled else LevelForRatio(current as real / baseline as real)
  }

  /** Throttling is detected exactly when the frequency has dropped below 95% of a
      non-zero baseline. */
  lemma FrequencyLevelThrottled(current: nat, baseline: nat)
    ensures FrequencyLevel(current, baseline) != NotThrottled <==> baseline > 0 && 100 * current < 95 * baseline
  {
    if baseline > 0 {
      var ratio := current as real / baseline as real;
      assert ratio * (baseline as real) == current as real;
      if ratio < 0.95 {
        assert (current as real) < 0.95 * (baseline as real);
      } else {
        assert (current as real) >= 0.95 * (baseline as real);
      }
    }
  }

  /** The frequency-drop example: 2.4 GHz against a 3.2 GHz baseline is a ratio of 0.75,
      moderate throttling; 1.2 GHz is half, heavy; anything below half is critical. */
  lemma FrequencyLevelExamples()
    ensures FrequencyLevel(2_400_000_000, 3_200_000_000) == Moderate
    ensures FrequencyLevel(1_600_000_000, 3_200_000_000) == Heavy
    ensures FrequencyLevel(1_500_000_000, 3_200_000_000) == Critical
    ensures FrequencyLevel(3_200_000_000, 0) == NotThrottled
  {
  }

  // ---------------------------------------------------------------------------
  // Reading the CPU frequency

  /** `get_current_cpu_frequency` given the run of `sysctl -n hw.cpufrequency`: an error
      when the command cannot start or its trimmed output is not a `u64`, nothing when it
      exits with failure. */
  function CurrentFrequency(run: CommandRun): (r: Result<Option<nat>, IoError>)
    ensures run.NotStarted? <==> r == Err(CommandFailed)
    ensures r == Ok(None) <==> run.Exited? && !run.success
    ensures r == Err(InvalidData) <==> run.Exited? && run.success && ParseUnsigned(Trim(run.stdout), U64_MAX).None?
    ensures r.Ok? && r.value.Some? ==> r.value.value <= U64_MAX
  {
    match run
    case NotStarted => Err(CommandFailed)
    case Exited(success, stdout) =>
      if !success then Ok(None)
      else
        match ParseUnsigned(Trim(stdout), U64_MAX)
        case Some(v) => Ok(Some(v))
        case None => Err(InvalidData)
  }

  // ---------------------------------------------------------------------------
  // Hot sensors and throttling events

  predicate IsHot(s: ThermalSensor, threshold: real) {
    s.valid && s.current > threshold
  }

  /** The valid sensors above the threshold, in order. */
  function HotSensors(sensors: seq<ThermalSensor>, threshold: real): (hot: seq<ThermalSensor>)
    ensures forall i :: 0 <= i < |hot| ==> IsHot(hot[i], threshold) && hot[i] in sensors
    ensures forall s :: s in sensors && IsHot(s, threshold) ==> s in hot
  {
    if sensors == [] then []
    else
      assert forall s :: s in sensors ==> s == sensors[0] || s in sensors[1..];
      (if IsHot(sensors[0], threshold) then [sensors[0]] else []) + HotSensors(sensors[1..], threshold)
  }

  /** The position `max_by` on temperature picks: a hottest sensor, and of several equally
      hot ones the last. */
  function HottestIndex(xs: seq<ThermalSensor>): (i: nat)
    requires xs != []
    ensures i < |xs|
    ensures forall j :: 0 <= j < |xs| ==> xs[j].current <= xs[i].current
    ensures forall j :: i < j < |xs| ==> xs[j].current < xs[i].current
  {
    if |xs| == 1 then 0
    else
      var k := 1 + HottestIndex(xs[1..]);
      assert forall j :: 1 <= j < |xs| ==> xs[j] == xs[1..][j - 1];
      if xs[0].current > xs[k].current then 0 else k
  }

  /** The event `detect_thermal_throttling` records, if any, for the current and baseline
      frequencies, the sensors, the threshold and the wall-clock time. */
  function DetectedEvent(current: Option<nat>, baseline: Option<nat>, sensors: seq<ThermalSensor>,
                         threshold: real, wallNow: nat): (event: Option<ThrottlingEvent>)
    ensures event.Some? <==>
              current.Some? && baseline.Some? && FrequencyLevel(current.value, baseline.value) != NotThrottled
              && exists s :: s in sensors && IsHot(s, threshold)
    ensures event.Some? ==>
              var e := event.value;
              e.level == FrequencyLevel(current.value, baseline.value)
              && e.frequencyBefore == baseline && e.frequencyAfter == current
              && e.timestampMs == wallNow && e.durationMs == None && e.affectedProcesses == []
              && e.temperature > threshold
              && (exists s :: s in sensors && IsHot(s, threshold) && s.name == e.sensorName && s.current == e.temperature)
              && (forall s :: s in sensors && IsHot(s, threshold) ==> s.current <= e.temperature)
  {
    if current.Some? && baseline.Some? then
      var level := FrequencyLevel(current.value, baseline.value);
      var hot := HotSensors(sensors, threshold);
      if hot != [] && level != NotThrottled then
        var hottest := hot[HottestIndex(hot)];
        assert hottest in hot;
        Some(ThrottlingEvent(wallNow, hottest.name, hottest.current, level, None, [], baseline, current))
      else
        assert hot == [] ==> forall s :: s in sensors ==> !IsHot(s, threshold);
        None
    else None
  }

  /** The throttling example: at a ratio of 0.75 with one sensor at 92 degrees and a cooler
      one at 70, the event names the hot sensor with moderate throttling. */
  lemma DetectionExample(wallNow: nat)
    ensures var hot := ThermalSensor("CPU Die", CpuPackage, 92.0, 92.0, 100.0, Digital, true);
            var cool := ThermalSensor("GPU Die", Gpu, 70.0, 70.0, 100.0, Digital, true);
            DetectedEvent(Some(2_400_000_000), Some(3_200_000_000), [cool, hot], 80.0, wallNow)
              == Some(ThrottlingEvent(wallNow, "CPU Die", 92.0, Moderate, None, [], Some(3_200_000_000), Some(2_400_000_000)))
  {
    var hot := ThermalSensor("CPU Die", CpuPackage, 92.0, 92.0, 100.0, Digital, true);
    var cool := ThermalSensor("GPU Die", Gpu, 70.0, 70.0, 100.0, Digital, true);
    assert [cool, hot][1..] == [hot];
    assert HotSensors([hot], 80.0) == [hot];
    assert HotSensors([cool, hot], 80.0) == [hot];
  }

  // ---------------------------------------------------------------------------
  // Temperature drift

  /** One sensor after `update_sensor_temperatures` with drift `variation`: a valid sensor
      moves by the drift, clamped to [20, 120], and its maximum follows; an invalid one is
      left alone. */
  function Warmed(s: ThermalSensor, variation: real): (t: ThermalSensor)
    ensures !s.valid ==> t == s
    ensures t.(current := s.current, maxTemp := s.maxTemp) == s
    ensures s.valid ==> 20.0 <= t.current <= 120.0
    ensures s.valid && 20.0 <= s.current + variation <= 120.0 ==> t.current == s.current + variation
    ensures s.valid ==> t.maxTemp >= t.current && t.maxTemp >= s.maxTemp
                        && (t.maxTemp == s.maxTemp || t.maxTemp == t.current)
  {
    if s.valid then
      var c := ClampReal(s.current + variation, 20.0, 120.0);
      s.(current := c, maxTemp := MaxReal(s.maxTemp, c))
    else s
  }

  /** Every sensor after one pass of drift, `variations[i]` being the drift drawn for the
      `i`-th sensor. */
  function WarmAll(sensors: seq<ThermalSensor>, variations: seq<real>): (r: seq<ThermalSensor>)
    requires |variations| == |sensors|
    ensures |r| == |sensors|
    ensures forall i :: 0 <= i < |r| ==> r[i] == Warmed(sensors[i], variations[i])
  {
    seq(|sensors|, i requires 0 <= i < |sensors| => Warmed(sensors[i], variations[i]))
  }

  /** What every sensor the monitor holds satisfies: its maximum is at least its current
      temperature. */
  predicate MaxCovers(sensors: seq<ThermalSensor>) {
    forall i :: 0 <= i < |sensors| ==> sensors[i].current <= sensors[i].maxTemp
  }

  /** Drift keeps every maximum at or above its temperature. */
  lemma WarmAllMaxCovers(sensors: seq<ThermalSensor>, variations: seq<real>)
    requires |variations| == |sensors| && MaxCovers(sensors)
    ensures MaxCovers(WarmAll(sensors, variations))
  {
  }

  // ---------------------------------------------------------------------------
  // Temperature history

  type Reading = (nat, real)
  type TemperatureHistory = map<string, seq<Reading>>

  /** How far back the per-sensor history reaches: one hour. */
  const HistoryWindowMs: nat := 3_600_000

  /** `retain(|(timestamp, _)| *timestamp > cutoff)`. */
  function Newer(xs: seq<Reading>, cutoff: int): (r: seq<Reading>)
    ensures forall k :: 0 <= k < |r| ==> r[k].0 > cutoff && r[k] in xs
    ensures forall x :: x in xs && x.0 > cutoff ==> x in r
  {
    if xs == [] then []
    else
      assert forall x :: x in xs ==> x == xs[0] || x in xs[1..];
      (if xs[0].0 > cutoff then [xs[0]] else []) + Newer(xs[1..], cutoff)
  }

  function EntryOf(h: TemperatureHistory, name: string): seq<Reading> {
    if name in h then h[name] else []
  }

  /** The history after one sensor's turn in `update_temperature_history` at instant `now`. */
  function Record(h: TemperatureHistory, s: ThermalSensor, now: nat): TemperatureHistory {
    if s.valid then h[s.name := Newer(EntryOf(h, s.name) + [(now, s.current)], now - HistoryWindowMs)]
    else h
  }

  /** The history after every sensor's turn, in order. */
  function RecordAll(h: TemperatureHistory, sensors: seq<ThermalSensor>, now: nat): TemperatureHistory
    decreases |sensors|
  {
    if sensors == [] then h else RecordAll(Record(h, sensors[0], now), sensors[1..], now)
  }

  /** A name no valid sensor carries keeps its history. */
  lemma {:induction false} RecordAllUntouched(h: TemperatureHistory, sensors: seq<ThermalSensor>, now: nat, name: string)
    requires forall i :: 0 <= i < |sensors| && sensors[i].valid ==> sensors[i].name != name
    ensures (name in RecordAll(h, sensors, now)) == (name in h)
    ensures name in h ==> RecordAll(h, sensors, now)[name] == h[name]
    decreases |sensors|
  {
    if sensors != [] {
      assert forall i :: 0 <= i < |sensors[1..]| ==> sensors[1..][i] == sensors[i + 1];
      RecordAllUntouched(Record(h, sensors[0], now), sensors[1..], now, name);
    }
  }

  /** A reading younger than the window survives later turns. */
  lemma {:induction false} RecordAllKeeps(h: TemperatureHistory, sensors: seq<ThermalSensor>, now: nat, name: string, x: Reading)
    requires name in h && x in h[name] && x.0 > now - HistoryWindowMs
    ensures name in RecordAll(h, sensors, now) && x in RecordAll(h, sensors, now)[name]
    decreases |sensors|
  {
    if sensors != [] {
      var h' := Record(h, sensors[0], now);
      assert x in h'[name];
      RecordAllKeeps(h', sensors[1..], now, name, x);
    }
  }

  /** After `update_temperature_history`, the history of every valid sensor's name holds
      only readings from the last hour, among them the sensor's reading taken now. */
  lemma {:induction false} RecordAllWindow(h: TemperatureHistory, sensors: seq<ThermalSensor>, now: nat, i: nat)
    requires i < |sensors| && sensors[i].valid
    ensures var name := sensors[i].name;
            name in RecordAll(h, sensors, now)
            && (now, sensors[i].current) in RecordAll(h, sensors, now)[name]
            && forall k :: 0 <= k < |RecordAll(h, sensors, now)[name]| ==> RecordAll(h, sensors, now)[name][k].0 > now - HistoryWindowMs
    decreases |sensors|
  {
    var name := sensors[i].name;
    var h' := Record(h, sensors[0], now);
    var rest := sensors[1..];
    assert forall j :: 0 <= j < |rest| ==> rest[j] == sensors[j + 1];
    if i > 0 {
      RecordAllWindow(h', rest, now, i - 1);
    } else {
      assert (now, sensors[0].current) in h'[name];
      RecordAllKeeps(h', rest, now, name, (now, sensors[0].current));
      if j :| 0 <= j < |rest| && rest[j].valid && rest[j].name == name {
        RecordAllWindow(h', rest, now, j);
      } else {
        RecordAllUntouched(h', rest, now, name);
      }
    }
  }

  // ---------------------------------------------------------------------------
  // Event history queries

  /** `trim_history`'s rule: the newest `max` events. */
  lemma TrimKeepsNewest(events: seq<ThrottlingEvent>, max: nat)
    ensures |KeepLast(events, max)| == if |events| <= max then |events| else max
    ensures forall k :: 0 <= k < |KeepLast(events, max)| ==> KeepLast(events, max)[k] == events[|events| - |KeepLast(events, max)| + k]
  {
  }

  predicate IsRecent(e: ThrottlingEvent, cutoff: int) {
    e.timestampMs > cutoff
  }

  /** `count_recent_throttling_events(duration)` at wall-clock time `wallNow`. */
  function CountRecent(events: seq<ThrottlingEvent>, durationMs: nat, wallNow: nat): (n: nat)
    ensures n <= |events|
  {
    CountIf(events, e => IsRecent(e, wallNow - durationMs))
  }

  /** A longer look-back never counts fewer events. */
  lemma {:induction false} CountRecentMonotone(events: seq<ThrottlingEvent>, d1: nat, d2: nat, wallNow: nat)
    requires d1 <= d2
    ensures CountRecent(events, d1, wallNow) <= CountRecent(events, d2, wallNow)
    decreases |events|
  {
    if events != [] {
      CountRecentMonotone(events[1..], d1, d2, wallNow);
    }
  }

  /** Events all from the look-back window are all counted. */
  lemma {:induction false} CountRecentAll(events: seq<ThrottlingEvent>, durationMs: nat, wallNow: nat)
    requires forall k :: 0 <= k < |events| ==> events[k].timestampMs > wallNow - durationMs
    ensures CountRecent(events, durationMs, wallNow) == |events|
    decreases |events|
  {
    if events != [] {
      assert forall k :: 0 <= k < |events[1..]| ==> events[1..][k] == events[k + 1];
      CountRecentAll(events[1..], durationMs, wallNow);
    }
  }

  /** `is_throttling_active` at wall-clock time `wallNow`: the latest event is less than 30
      seconds old. An event stamped in the future makes `elapsed` fail, which counts as 60
      seconds. */
  function IsThrottlingActive(events: seq<ThrottlingEvent>, wallNow: nat): (active: bool)
    ensures active <==> events != [] && events[|events| - 1].timestampMs <= wallNow
                        && wallNow - events[|events| - 1].timestampMs < 30_000
  {
    if events == [] then false
    else
      var stamp := events[|events| - 1].timestampMs;
      var elapsed: nat := if stamp <= wallNow then wallNow - stamp else 60_000;
      elapsed < 30_000
  }

  // ---------------------------------------------------------------------------
  // Temperature queries

  /** The temperatures of the sensors satisfying `p`, in order. */
  function TemperaturesWhere(sensors: seq<ThermalSensor>, p: ThermalSensor -> bool): (temps: seq<real>)
    ensures |temps| <= |sensors|
    ensures forall t :: t in temps <==> exists i :: 0 <= i < |sensors| && p(sensors[i]) && sensors[i].current == t
  {
    if sensors == [] then []
    else
      var rest := TemperaturesWhere(sensors[1..], p);
      assert forall i :: 1 <= i < |sensors| ==> sensors[i] == sensors[1..][i - 1];
      (if p(sensors[0]) then [sensors[0].current] else []) + rest
  }

  function ValidTemperatures(sensors: seq<ThermalSensor>): seq<real> {
    TemperaturesWhere(sensors, (s: ThermalSensor) => s.valid)
  }

  function MaxOf(xs: seq<real>): (m: real)
    requires xs != []
    ensures m in xs && forall k :: 0 <= k < |xs| ==> xs[k] <= m
  {
    if |xs| == 1 then xs[0]
    else
      assert forall k :: 1 <= k < |xs| ==> xs[k] == xs[1..][k - 1];
      MaxReal(xs[0], MaxOf(xs[1..]))
  }

  function MinOf(xs: seq<real>): (m: real)
    requires xs != []
    ensures m in xs && forall k :: 0 <= k < |xs| ==> m <= xs[k]
  {
    if |xs| == 1 then xs[0]
    else
      assert forall k :: 1 <= k < |xs| ==> xs[k] == xs[1..][k - 1];
      var rest := MinOf(xs[1..]);
      if xs[0] <= rest then xs[0] else rest
  }

  /** The arithmetic mean `sum / len`. */
  function Mean(xs: seq<real>): (m: real)
    requires xs != []
    ensures MinOf(xs) <= m <= MaxOf(xs)
  {
    MeanBetween(xs, MinOf(xs), MaxOf(xs));
    SumReal(xs) / (|xs| as real)
  }

  lemma MeanBetween(xs: seq<real>, lo: real, hi: real)
    requires xs != [] && forall x :: x in xs ==> lo <= x <= hi
    ensures lo <= SumReal(xs) / (|xs| as real) <= hi
  {
    SumRealBounds(xs, lo, hi);
    QuotientBetween(SumReal(xs), |xs| as real, lo, hi);
  }

  lemma QuotientBetween(total: real, n: real, lo: real, hi: real)
    requires n > 0.0 && lo * n <= total <= hi * n
    ensures lo <= total / n <= hi
  {
    var q := total / n;
    assert q * n == total;
    assert (q - lo) * n >= 0.0 && (hi - q) * n >= 0.0;
  }

  /** `get_hottest_temperature`: the largest temperature among the valid sensors, none when
      there are none. */
  function HottestTemperature(sensors: seq<ThermalSensor>): (r: Option<real>)
    ensures r.None? <==> forall i :: 0 <= i < |sensors| ==> !sensors[i].valid
    ensures r.Some? ==> (exists i :: 0 <= i < |sensors| && sensors[i].valid && sensors[i].current == r.value)
                        && forall i :: 0 <= i < |sensors| && sensors[i].valid ==> sensors[i].current <= r.value
  {
    var temps := ValidTemperatures(sensors);
    if temps == [] then
      assert forall i :: 0 <= i < |sensors| && sensors[i].valid ==> sensors[i].current in temps;
      None
    else
      var m := MaxOf(temps);
      forall i | 0 <= i < |sensors| && sensors[i].valid ensures sensors[i].current <= m {
        assert sensors[i].current in temps;
      }
      Some(m)
  }

  predicate IsValidPackage(s: ThermalSensor) {
    s.location.CpuPackage? && s.valid
  }

  predicate IsValidCore(s: ThermalSensor) {
    s.location.CpuCore? && s.valid
  }

  /** The temperature of the first valid package sensor. */
  function FirstPackageTemperature(sensors: seq<ThermalSensor>): (r: Option<real>)
    ensures r.None? <==> forall i :: 0 <= i < |sensors| ==> !IsValidPackage(sensors[i])
    ensures r.Some? ==> exists i :: 0 <= i < |sensors| && IsValidPackage(sensors[i]) && sensors[i].current == r.value
                                    && forall j :: 0 <= j < i ==> !IsValidPackage(sensors[j])
  {
    if sensors == [] then None
    else if IsValidPackage(sensors[0]) then Some(sensors[0].current)
    else
      var r := FirstPackageTemperature(sensors[1..]);
      assert forall j :: 1 <= j < |sensors| ==> sensors[j] == sensors[1..][j - 1];
      if r.Some? then
        var i :| 0 <= i < |sensors[1..]| && IsValidPackage(sensors[1..][i]) && sensors[1..][i].current == r.value
                 && forall j :: 0 <= j < i ==> !IsValidPackage(sensors[1..][j]);
        assert IsValidPackage(sensors[i + 1]) && forall j :: 0 <= j < i + 1 ==> !IsValidPackage(sensors[j]);
        r
      else r
  }

  function CoreTemperatures(sensors: seq<ThermalSensor>): seq<real> {
    TemperaturesWhere(sensors, IsValidCore)
  }

  /** `get_cpu_temperature`: the first valid package sensor's temperature; failing that the
      mean of the valid core sensors; failing that none. */
  function CpuTemperature(sensors: seq<ThermalSensor>): (r: Option<real>)
    ensures FirstPackageTemperature(sensors).Some? ==> r == FirstPackageTemperature(sensors)
    ensures r.None? <==> forall i :: 0 <= i < |sensors| ==> !IsValidPackage(sensors[i]) && !IsValidCore(sensors[i])
    ensures FirstPackageTemperature(sensors).None? && r.Some? ==>
              var cores := CoreTemperatures(sensors);
              cores != [] && MinOf(cores) <= r.value <= MaxOf(cores)
  {
    var first := FirstPackageTemperature(sensors);
    if first.Some? then first
    else
      var cores := CoreTemperatures(sensors);
      if cores != [] then Some(Mean(cores))
      else
        assert forall i :: 0 <= i < |sensors| && IsValidCore(sensors[i]) ==> sensors[i].current in cores;
        None
  }

  datatype ThermalStatistics = ThermalStatistics(
    sensorCount: nat,
    averageTemperature: real,
    maxTemperature: real,
    minTemperature: real,
    cpuTemperature: Option<real>,
    throttlingEventsLastHour: nat,
    isCurrentlyThrottling: bool)

  /** `ThermalStatistics::default()`. */
  const DefaultStatistics := ThermalStatistics(0, 0.0, 0.0, 0.0, None, 0, false)

  /** `get_thermal_statistics` at wall-clock time `wallNow`: the defaults when no sensor is
      valid; otherwise the count, mean, maximum and minimum of the valid temperatures, the
      CPU temperature, the events of the last hour and whether throttling is active. The
      folds from minus and plus infinity are the maximum and minimum of a non-empty list. */
  function Statistics(sensors: seq<ThermalSensor>, events: seq<ThrottlingEvent>, wallNow: nat): (stats: ThermalStatistics)
    ensures HottestTemperature(sensors).None? ==> stats == DefaultStatistics
    ensures HottestTemperature(sensors).Some? ==>
              stats.sensorCount == |ValidTemperatures(sensors)| > 0
              && stats.maxTemperature == HottestTemperature(sensors).value
              && stats.minTemperature <= stats.averageTemperature <= stats.maxTemperature
              && (forall i :: 0 <= i < |sensors| && sensors[i].valid ==> stats.minTemperature <= sensors[i].current)
              && (exists i :: 0 <= i < |sensors| && sensors[i].valid && stats.minTemperature == sensors[i].current)
              && stats.minTemperature == MinOf(ValidTemperatures(sensors))
              && stats.averageTemperature == Mean(ValidTemperatures(sensors))
              && stats.cpuTemperature == CpuTemperature(sensors)
              && stats.throttlingEventsLastHour == CountRecent(events, 3_600_000, wallNow)
              && stats.isCurrentlyThrottling == IsThrottlingActive(events, wallNow)
  {
    var temps := ValidTemperatures(sensors);
    if temps == [] then
      assert forall i :: 0 <= i < |sensors| && sensors[i].valid ==> sensors[i].current in temps;
      DefaultStatistics
    else
      var hi := MaxOf(temps);
      var lo := MinOf(temps);
      assert HottestTemperature(sensors) == Some(hi) by {
        var i :| 0 <= i < |sensors| && sensors[i].valid && sensors[i].current == hi;
        forall j | 0 <= j < |sensors| && sensors[j].valid ensures sensors[j].current <= hi {
          assert sensors[j].current in temps;
        }
        assert HottestTemperature(sensors).value <= hi && hi <= HottestTemperature(sensors).value;
      }
      forall i | 0 <= i < |sensors| && sensors[i].valid ensures lo <= sensors[i].current {
        assert sensors[i].current in temps;
      }
      ThermalStatistics(|temps|, Mean(temps), hi, lo, CpuTemperature(sensors),
                        CountRecent(events, 3_600_000, wallNow), IsThrottlingActive(events, wallNow))
  }

  // ---------------------------------------------------------------------------
  // SMC sensors

  /** A property the SMC returns for a key: a number, or raw bytes. */
  datatype SmcProperty = SmcNumber(value: real) | SmcData(bytes: seq<bv8>)

  /** One SMC service: the properties it has, by key. */
  type SmcService = map<string, SmcProperty>

  /** The SMC's fixed-point temperature: `((b0 as u16) << 8) | b1` over 256, read only
      when at least four bytes are present. */
  function SmcDecode(bytes: seq<bv8>): (t: Option<real>)
    ensures t.Some? <==> |bytes| >= 4
    ensures t.Some? ==> t.value == (bytes[0] as int) as real + (bytes[1] as int) as real / 256.0
  {
    if |bytes| >= 4 then Some(FixedPoint(bytes[0], bytes[1])) else None
  }

  /** `((hi as u16) << 8 | lo as u16) as f32 / 256.0`. */
  function FixedPoint(hi: bv8, lo: bv8): (t: real)
    ensures t == (hi as int) as real + (lo as int) as real / 256.0
  {
    var raw := ((hi as bv16) << 8) | (lo as bv16);
    RawValue(hi, lo);
    (raw as int) as real / 256.0
  }

  /** The shift-and-or of two bytes is their big-endian 16-bit value. */
  lemma RawValue(hi: bv8, lo: bv8)
    ensures ((((hi as bv16) << 8) | (lo as bv16)) as int) == 256 * (hi as int) + (lo as int)
  {
    assert ((hi as bv16) << 8) | (lo as bv16) == (hi as bv16) * 256 + (lo as bv16);
  }

  /** A decoded SMC temperature lies in [0, 256), and passes the validity test exactly
      when its high byte is below 150. */
  lemma SmcDecodeRange(bytes: seq<bv8>)
    requires |bytes| >= 4
    ensures 0.0 <= SmcDecode(bytes).value < 256.0
    ensures IsValidReading(SmcDecode(bytes).value) <==> bytes[0] < 150
  {
    var b0 := (bytes[0] as int) as real;
    var b1 := (bytes[1] as int) as real;
    assert 0.0 <= b1 / 256.0 < 1.0;
    if bytes[0] < 150 {
      assert b0 <= 149.0;
    } else {
      assert b0 >= 150.0;
    }
  }

  /** `read_smc_temperature`: a number reads as itself, data as its fixed-point value; a
      missing key, or data too short, reads as nothing. */
  function SmcTemperature(service: SmcService, key: string): Option<real> {
    if key !in service then None
    else
      match service[key]
      case SmcNumber(v) => Some(v)
      case SmcData(bytes) => SmcDecode(bytes)
  }

  /** The validity test of an SMC reading. */
  predicate IsValidReading(t: real) {
    -50.0 < t && t < 150.0
  }

  /** The keys `read_smc_sensors` asks for, with the sensor name and location of each. */
  const SmcKeys: seq<(string, string, ThermalLocation)> := [
    ("TC0P", "CPU Proximity", CpuPackage),
    ("TC0H", "CPU Heatsink", CpuPackage),
    ("TC0D", "CPU Die", CpuPackage),
    ("TC1C", "CPU Core 1", CpuCore(0)),
    ("TC2C", "CPU Core 2", CpuCore(1)),
    ("TC3C", "CPU Core 3", CpuCore(2)),
    ("TC4C", "CPU Core 4", CpuCore(3)),
    ("TGDD", "GPU Die", Gpu),
    ("TM0P", "Memory Proximity", Memory),
    ("TA0P", "Ambient", Ambient),
    ("TB1T", "Battery", Battery)]

  /** A sensor as first read: its maximum is its reading, its critical temperature 100. */
  function NewSensor(name: string, location: ThermalLocation, t: real, valid: bool): ThermalSensor {
    ThermalSensor(name, location, t, t, 100.0, Digital, valid)
  }

  /** The sensor `read_smc_sensors` keeps for one key, if any: the key must read, the
      reading must be valid and the name must not be blacklisted. */
  function SmcSensor(entry: (string, string, ThermalLocation), service: SmcService, blacklist: seq<string>): (s: Option<ThermalSensor>)
    ensures s.Some? <==> SmcTemperature(service, entry.0).Some? && IsValidReading(SmcTemperature(service, entry.0).value)
                         && entry.1 !in blacklist
    ensures s.Some? ==> s.value == NewSensor(entry.1, entry.2, SmcTemperature(service, entry.0).value, true)
  {
    match SmcTemperature(service, entry.0)
    case None => None
    case Some(t) =>
      var sensor := NewSensor(entry.1, entry.2, t, IsValidReading(t));
      if sensor.valid && sensor.name !in blacklist then Some(sensor) else None
  }

  /** Every sensor discovered on a service. */
  function SmcSensors(service: SmcService, blacklist: seq<string>): seq<ThermalSensor> {
    FilterMap(SmcKeys, e => SmcSensor(e, service, blacklist))
  }

  /** Every sensor kept from the SMC is valid, not blacklisted, read in the valid range,
      and at its own maximum. */
  lemma SmcSensorsKept(service: SmcService, blacklist: seq<string>, s: ThermalSensor)
    requires s in SmcSensors(service, blacklist)
    ensures s.valid && s.name !in blacklist && IsValidReading(s.current) && s.maxTemp == s.current
    ensures exists k :: 0 <= k < |SmcKeys| && SmcKeys[k].1 == s.name && SmcKeys[k].2 == s.location
                        && SmcTemperature(service, SmcKeys[k].0) == Some(s.current)
  {
    FilterMapMember(SmcKeys, e => SmcSensor(e, service, blacklist), s);
  }

  /** Every key that reads validly and whose name is not blacklisted gives a sensor. */
  lemma SmcSensorsComplete(service: SmcService, blacklist: seq<string>, k: nat)
    requires k < |SmcKeys|
    requires SmcTemperature(service, SmcKeys[k].0).Some? && IsValidReading(SmcTemperature(service, SmcKeys[k].0).value)
    requires SmcKeys[k].1 !in blacklist
    ensures NewSensor(SmcKeys[k].1, SmcKeys[k].2, SmcTemperature(service, SmcKeys[k].0).value, true) in SmcSensors(service, blacklist)
  {
    var f := e => SmcSensor(e, service, blacklist);
    FilterMapMember(SmcKeys, f, NewSensor(SmcKeys[k].1, SmcKeys[k].2, SmcTemperature(service, SmcKeys[k].0).value, true));
    assert f(SmcKeys[k]).Some?;
  }

  /** The `read_smc_sensors` loop over the key table for one service. */
  method ReadSmcSensors(service: SmcService, blacklist: seq<string>) returns (found: seq<ThermalSensor>)
    ensures found == SmcSensors(service, blacklist)
  {
    var f := e => SmcSensor(e, service, blacklist);
    found := [];
    var i := 0;
    while i < |SmcKeys|
      invariant i <= |SmcKeys|
      invariant found == FilterMap(SmcKeys[..i], f)
    {
      var (key, name, location) := SmcKeys[i];
      FilterMapSnoc(SmcKeys[..i], SmcKeys[i], f);
      assert SmcKeys[..i + 1] == SmcKeys[..i] + [SmcKeys[i]];
      var reading := SmcTemperature(service, key);
      if reading.Some? {
        var t := reading.value;
        var sensor := NewSensor(name, location, t, -50.0 < t && t < 150.0);
        if sensor.valid && sensor.name !in blacklist {
          found := found + [sensor];
        }
      }
      i := i + 1;
    }
    assert SmcKeys[..|SmcKeys|] == SmcKeys;
  }

  /** The sensor `add_fallback_sensors` adds from a `sysctl` reading: valid only when
      strictly between 0 and 150, and added whatever its validity and the blacklist. */
  function FallbackSensor(t: real): (s: ThermalSensor)
    ensures s.valid <==> 0.0 < t < 150.0
    ensures s.location == CpuPackage && s.current == t == s.maxTemp
  {
    NewSensor("CPU Package (sysctl)", CpuPackage, t, 0.0 < t && t < 150.0)
  }

  /** `discover_thermal_sensors`: the sensors of every SMC service in turn, or, when none
      is found, the fallback sensor if the `sysctl` reading parsed. */
  function DiscoveredSensors(services: seq<SmcService>, blacklist: seq<string>, fallback: Option<real>): (sensors: seq<ThermalSensor>)
    ensures MaxCovers(sensors)
  {
    var found := AllSmcSensors(services, blacklist);
    if found != [] then found
    else if fallback.Some? then [FallbackSensor(fallback.value)]
    else []
  }

  function AllSmcSensors(services: seq<SmcService>, blacklist: seq<string>): (sensors: seq<ThermalSensor>)
    ensures forall i :: 0 <= i < |sensors| ==> sensors[i].valid && sensors[i].name !in blacklist
                                               && sensors[i].current == sensors[i].maxTemp
  {
    if services == [] then []
    else
      var first := SmcSensors(services[0], blacklist);
      forall s | s in first ensures s.valid && s.name !in blacklist && s.current == s.maxTemp {
        SmcSensorsKept(services[0], blacklist, s);
      }
      first + AllSmcSensors(services[1..], blacklist)
  }

  // ---------------------------------------------------------------------------
  // The monitor

  /** `ThermalMonitor`: the sensors, the throttling events and the temperature history it
      updates in place. */
  class Monitor {
    const config: ThermalConfig
    var sensors: seq<ThermalSensor>
    var throttlingHistory: seq<ThrottlingEvent>
    var lastUpdate: nat
    var temperatureHistory: TemperatureHistory
    const baselineFrequency: Option<nat>

    /** Each sensor's maximum covers its temperature, and the event history is within its
        bound. */
    predicate Valid()
      reads this
    {
      MaxCovers(sensors) && |throttlingHistory| <= config.maxHistoryEntries
    }

    constructor Init(config: ThermalConfig, sensors: seq<ThermalSensor>, baseline: Option<nat>, now: nat)
      requires MaxCovers(sensors)
      ensures this.config == config && this.sensors == sensors && baselineFrequency == baseline
      ensures throttlingHistory == [] && temperatureHistory == map[] && lastUpdate == now
      ensures Valid()
    {
      this.config := config;
      this.sensors := sensors;
      baselineFrequency := baseline;
      throttlingHistory := [];
      temperatureHistory := map[];
      lastUpdate := now;
    }

    /** `ThermalMonitor::new` at instant `now`: discovery on the SMC services (or the error
        of looking them up), then the baseline frequency from `sysctl`, whose error fails the
        construction. */
    static method New(config: ThermalConfig, services: Result<seq<SmcService>, IoError>, fallback: Option<real>,
                      frequency: CommandRun, now: nat) returns (r: Result<Monitor, IoError>)
      ensures services.Err? ==> r == Err(services.error)
      ensures services.Ok? && CurrentFrequency(frequency).Err? ==> r == Err(CurrentFrequency(frequency).error)
      ensures r.Ok? ==> services.Ok? && CurrentFrequency(frequency).Ok?
      ensures r.Ok? ==>
                fresh(r.value) && r.value.Valid()
                && r.value.config == config
                && r.value.sensors == DiscoveredSensors(services.value, config.blacklist, fallback)
                && r.value.baselineFrequency == CurrentFrequency(frequency).value
                && r.value.throttlingHistory == [] && r.value.temperatureHistory == map[]
                && r.value.lastUpdate == now
    {
      if services.Err? {
        return Err(services.error);
      }
      var sensors := DiscoveredSensors(services.value, config.blacklist, fallback);
      var baseline := CurrentFrequency(frequency);
      if baseline.Err? {
        return Err(baseline.error);
      }
      var m := new Monitor.Init(config, sensors, baseline.value, now);
      return Ok(m);
    }

    /** `update_sensor_temperatures`, with `variations[i]` the drift drawn for sensor `i`. */
    method UpdateSensorTemperatures(variations: seq<real>)
      requires |variations| == |sensors|
      modifies this
      ensures sensors == WarmAll(old(sensors), variations)
      ensures throttlingHistory == old(throttlingHistory) && temperatureHistory == old(temperatureHistory)
      ensures lastUpdate == old(lastUpdate)
    {
      var i := 0;
      while i < |sensors|
        invariant |sensors| == |old(sensors)| && i <= |sensors|
        invariant forall k :: 0 <= k < i ==> sensors[k] == Warmed(old(sensors)[k], variations[k])
        invariant forall k :: i <= k < |sensors| ==> sensors[k] == old(sensors)[k]
        invariant throttlingHistory == old(throttlingHistory) && temperatureHistory == old(temperatureHistory)
        invariant lastUpdate == old(lastUpdate)
      {
        var s := sensors[i];
        if s.valid {
          var c := ClampReal(s.current + variations[i], 20.0, 120.0);
          s := s.(current := c, maxTemp := MaxReal(s.maxTemp, c));
        }
        sensors := sensors[i := s];
        i := i + 1;
      }
    }

    /** `detect_thermal_throttling` at wall-clock time `wallNow`, given the run of `sysctl`
        that reads the current frequency: its error is returned, otherwise any detected
        event is appended. */
    method DetectThermalThrottling(frequency: CommandRun, wallNow: nat) returns (r: Result<Unit, IoError>)
      modifies this
      ensures CurrentFrequency(frequency).Err? ==> r == Err(CurrentFrequency(frequency).error)
                                                   && throttlingHistory == old(throttlingHistory)
      ensures CurrentFrequency(frequency).Ok? ==>
                r == Ok(Unit)
                && throttlingHistory == old(throttlingHistory)
                   + OptionToSeq(DetectedEvent(CurrentFrequency(frequency).value, baselineFrequency, sensors,
                                               config.thresholdCelsius, wallNow))
      ensures sensors == old(sensors) && temperatureHistory == old(temperatureHistory) && lastUpdate == old(lastUpdate)
    {
      var current := CurrentFrequency(frequency);
      if current.Err? {
        return Err(current.error);
      }
      var event := DetectedEvent(current.value, baselineFrequency, sensors, config.thresholdCelsius, wallNow);
      if event.Some? {
        throttlingHistory := throttlingHistory + [event.value];
      }
      return Ok(Unit);
    }

    /** `update_temperature_history` at instant `now`. */
    method UpdateTemperatureHistory(now: nat)
      modifies this
      ensures temperatureHistory == RecordAll(old(temperatureHistory), sensors, now)
      ensures sensors == old(sensors) && throttlingHistory == old(throttlingHistory) && lastUpdate == old(lastUpdate)
    {
      var i := 0;
      while i < |sensors|
        invariant i <= |sensors|
        invariant RecordAll(temperatureHistory, sensors[i..], now) == RecordAll(old(temperatureHistory), sensors, now)
        invariant sensors == old(sensors) && throttlingHistory == old(throttlingHistory) && lastUpdate == old(lastUpdate)
      {
        var s := sensors[i];
        assert sensors[i..][0] == s && sensors[i..][1..] == sensors[i + 1..];
        if s.valid {
          var history := if s.name in temperatureHistory then temperatureHistory[s.name] else [];
          history := history + [(now, s.current)];
          history := Newer(history, now - HistoryWindowMs);
          temperatureHistory := temperatureHistory[s.name := history];
        }
        i := i + 1;
      }
    }

    /** `trim_history`: drop the oldest events beyond `max_history_entries`. */
    method TrimHistory()
      modifies this
      ensures throttlingHistory == KeepLast(old(throttlingHistory), config.maxHistoryEntries)
      ensures sensors == old(sensors) && temperatureHistory == old(temperatureHistory) && lastUpdate == old(lastUpdate)
    {
      if |throttlingHistory| > config.maxHistoryEntries {
        var excess := |throttlingHistory| - config.maxHistoryEntries;
        throttlingHistory := throttlingHistory[excess..];
      }
    }

    /** `update` at instant `now` and wall-clock time `wallNow`: nothing before the polling
        interval has elapsed; otherwise drift, detection (whose error stops the update
        after the drift), history, trimming, and the new update time. */
    method Update(now: nat, wallNow: nat, variations: seq<real>, frequency: CommandRun) returns (r: Result<Unit, IoError>)
      requires Valid() && |variations| == |sensors|
      modifies this
      ensures Valid()
      ensures Elapsed(now, old(lastUpdate)) < config.pollingIntervalMs ==>
                r == Ok(Unit) && sensors == old(sensors) && throttlingHistory == old(throttlingHistory)
                && temperatureHistory == old(temperatureHistory) && lastUpdate == old(lastUpdate)
      ensures Elapsed(now, old(lastUpdate)) >= config.pollingIntervalMs ==> sensors == WarmAll(old(sensors), variations)
      ensures Elapsed(now, old(lastUpdate)) >= config.pollingIntervalMs && config.detectionEnabled && CurrentFrequency(frequency).Err? ==>
                r == Err(CurrentFrequency(frequency).error) && throttlingHistory == old(throttlingHistory)
                && temperatureHistory == old(temperatureHistory) && lastUpdate == old(lastUpdate)
      ensures Elapsed(now, old(lastUpdate)) >= config.pollingIntervalMs && !(config.detectionEnabled && CurrentFrequency(frequency).Err?) ==>
                r == Ok(Unit)
                && throttlingHistory == KeepLast(old(throttlingHistory) + NewEvents(frequency, sensors, wallNow),
                                                 config.maxHistoryEntries)
                && temperatureHistory == RecordAll(old(temperatureHistory), sensors, now)
                && lastUpdate == now
    {
      if Elapsed(now, lastUpdate) < config.pollingIntervalMs {
        return Ok(Unit);
      }
      WarmAllMaxCovers(sensors, variations);
      UpdateSensorTemperatures(variations);
      if config.detectionEnabled {
        r := DetectThermalThrottling(frequency, wallNow);
        if r.Err? {
          return r;
        }
      }
      UpdateTemperatureHistory(now);
      TrimHistory();
      lastUpdate := now;
      return Ok(Unit);
    }

    /** The events one update appends before trimming. */
    function NewEvents(frequency: CommandRun, sensors: seq<ThermalSensor>, wallNow: nat): (events: seq<ThrottlingEvent>)
      reads this
      ensures |events| <= 1
    {
      if config.detectionEnabled && CurrentFrequency(frequency).Ok? then
        OptionToSeq(DetectedEvent(CurrentFrequency(frequency).value, baselineFrequency, sensors,
                                  config.thresholdCelsius, wallNow))
      else []
    }
  }
}
