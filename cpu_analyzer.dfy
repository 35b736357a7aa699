/** The CPU analyzer (monitors/cpu/src/cpu_analyzer.rs): a rate-limited sampler that keeps the
    last sixty CPU readings, a trend computed from the newest readings against the ones before
    them, and three bottleneck tests. The operating-system reading is an input; the clock is an
    explicit millisecond count. */
module CpuAnalyzer {
  import opened Common
  import opened Seqs

  datatype LoadAverage = LoadAverage(oneMinute: real, fiveMinutes: real, fifteenMinutes: real)

  /** `CpuMetrics`. */
  datatype CpuMetrics = CpuMetrics(
    totalUsage: real,
    perCoreUsage: seq<real>,
    loadAverage: LoadAverage,
    frequencyMhz: nat,
    temperature: Option<real>)

  /** What `sysinfo` reports after a CPU and memory refresh. */
  datatype SystemReading = SystemReading(
    globalUsage: real,
    coreUsages: seq<real>,
    load: LoadAverage,
    frequencyMhz: nat,
    usedMemory: nat,
    totalMemory: nat)

  const MaxHistorySize: nat := 60
  /** `refresh` does nothing until this many milliseconds have passed since the last update. */
  const MinRefreshMs: nat := 500

  /** `get_current_metrics`: the reading as metrics, with no temperature. */
  function MetricsOf(r: SystemReading): (m: CpuMetrics)
    ensures m.totalUsage == r.globalUsage && m.perCoreUsage == r.coreUsages
    ensures m.loadAverage == r.load && m.frequencyMhz == r.frequencyMhz && m.temperature == None
  {
    CpuMetrics(r.globalUsage, r.coreUsages, r.load, r.frequencyMhz, None)
  }

  // ---------------------------------------------------------------------------
  // Bounded history

  /** One push onto the history: when it is full the oldest entry goes first. */
  function Pushed(h: seq<CpuMetrics>, m: CpuMetrics): seq<CpuMetrics> {
    (if |h| >= MaxHistorySize then h[1..] else h) + [m]
  }

  /** Starting from a history within bounds, a push keeps the sixty newest entries of the old
      history followed by the new one. */
  lemma PushedKeepsNewest(h: seq<CpuMetrics>, m: CpuMetrics)
    requires |h| <= MaxHistorySize
    ensures Pushed(h, m) == KeepLast(h + [m], MaxHistorySize)
    ensures |Pushed(h, m)| <= MaxHistorySize && Pushed(h, m)[|Pushed(h, m)| - 1] == m
  {
    if |h| == MaxHistorySize {
      assert (h + [m])[|h + [m]| - MaxHistorySize..] == h[1..] + [m];
    }
  }

  /** The history after a series of accepted refreshes whose metrics were `ms`. */
  function PushAll(h: seq<CpuMetrics>, ms: seq<CpuMetrics>): seq<CpuMetrics> {
    if ms == [] then h else Pushed(PushAll(h, ms[..|ms| - 1]), ms[|ms| - 1])
  }

  /** However many refreshes were accepted, the history is the sixty newest metrics, oldest
      first. */
  lemma {:induction false} HistoryIsNewestSixty(ms: seq<CpuMetrics>)
    ensures PushAll([], ms) == KeepLast(ms, MaxHistorySize)
  {
    if ms != [] {
      var n := |ms| - 1;
      var before := ms[..n];
      HistoryIsNewestSixty(before);
      var k := KeepLast(before, MaxHistorySize);
      PushedKeepsNewest(k, ms[n]);
      assert ms == before + [ms[n]];
      KeepLastSnoc(before, ms[n], MaxHistorySize);
    }
  }

  lemma KeepLastSnoc<A>(xs: seq<A>, x: A, n: nat)
    requires n >= 1
    ensures KeepLast(KeepLast(xs, n) + [x], n) == KeepLast(xs + [x], n)
  {
    var k := KeepLast(xs, n);
    if |xs| > n {
      assert k + [x] == (xs + [x])[|xs| - n..];
      assert (k + [x])[|k + [x]| - n..] == (xs + [x])[|xs + [x]| - n..];
    }
  }

  // ---------------------------------------------------------------------------
  // Trend

  function TotalUsage(m: CpuMetrics): real { m.totalUsage }

  function Min(a: nat, b: nat): nat { if a <= b then a else b }
  function Max(a: nat, b: nat): nat { if a >= b then a else b }

  /** The newest five readings (fewer when the history is shorter): `rev().take(5)`. */
  function Recent(h: seq<CpuMetrics>): (r: seq<CpuMetrics>)
    ensures |r| == Min(5, |h|)
  {
    h[|h| - Min(5, |h|)..]
  }

  /** The five readings before those: `rev().skip(5).take(5)`. */
  function Older(h: seq<CpuMetrics>): (r: seq<CpuMetrics>)
    ensures |r| == Min(5, SaturatingSub(|h|, 5))
  {
    if |h| <= 5 then [] else h[|h| - 5 - Min(5, |h| - 5)..|h| - 5]
  }

  /** The mean of the readings, zero for none. */
  function Average(xs: seq<CpuMetrics>): real {
    if xs == [] then 0.0 else SumBy(xs, TotalUsage) / (|xs| as real)
  }

  function MinReal(a: real, b: real): real { if a <= b then a else b }

  /** The panic of `usize` subtraction below zero in a build with overflow checks. */
  datatype Overflow = Overflow

  /** `usize` subtraction with overflow checks. */
  function CheckedSub(a: nat, b: nat): (r: Result<nat, Overflow>)
    ensures r.Ok? <==> b <= a
    ensures r.Ok? ==> r.value + b == a
  {
    if b <= a then Ok(a - b) else Err(Overflow)
  }

  /** `get_cpu_trend` as written: the divisor of the older average is computed as
      `(len - 5).max(1)` on `usize`, which fails for two to four readings. */
  function CpuTrendAsWritten(h: seq<CpuMetrics>): Result<Option<real>, Overflow> {
    if |h| < 2 then Ok(None)
    else
      var recentAvg := SumBy(Recent(h), TotalUsage) / MinReal(5.0, |h| as real);
      match CheckedSub(|h|, 5)
      case Err(e) => Err(e)
      case Ok(d) =>
        var olderAvg := SumBy(Older(h), TotalUsage) / MinReal(5.0, Max(d, 1) as real);
        Ok(Some(recentAvg - olderAvg))
  }

  /** With two to four readings the as-written trend overflows instead of answering. */
  lemma TrendAsWrittenOverflows(h: seq<CpuMetrics>)
    requires 2 <= |h| <= 4
    ensures CpuTrendAsWritten(h) == Err(Overflow)
  {
  }

  /** `get_cpu_trend` with the subtraction saturating, as intended: the newest readings'
      average minus the average of the readings before them (zero when there are none). */
  function CpuTrend(h: seq<CpuMetrics>): (t: Option<real>)
    ensures t.None? <==> |h| < 2
    ensures t.Some? ==> t.value == Average(Recent(h)) - Average(Older(h))
  {
    if |h| < 2 then None
    else
      var recentAvg := SumBy(Recent(h), TotalUsage) / MinReal(5.0, |h| as real);
      var olderAvg := SumBy(Older(h), TotalUsage) / MinReal(5.0, Max(SaturatingSub(|h|, 5), 1) as real);
      assert Older(h) == [] ==> SumBy(Older(h), TotalUsage) == 0.0;
      Some(recentAvg - olderAvg)
  }

  /** Where the subtraction cannot overflow, the as-written trend is the corrected one. */
  lemma TrendAgreesWithoutOverflow(h: seq<CpuMetrics>)
    requires |h| < 2 || |h| >= 5
    ensures CpuTrendAsWritten(h) == Ok(CpuTrend(h))
  {
  }

  lemma {:induction false} SumByConstant(xs: seq<CpuMetrics>, c: real)
    requires forall i :: 0 <= i < |xs| ==> xs[i].totalUsage == c
    ensures SumBy(xs, TotalUsage) == (|xs| as real) * c
  {
    if xs != [] {
      SumByConstant(xs[1..], c);
    }
  }

  lemma {:induction false} SumByAtLeast(xs: seq<CpuMetrics>, lo: real)
    requires forall i :: 0 <= i < |xs| ==> xs[i].totalUsage >= lo
    ensures SumBy(xs, TotalUsage) >= (|xs| as real) * lo
  {
    if xs != [] {
      SumByAtLeast(xs[1..], lo);
    }
  }

  lemma {:induction false} SumByBelow(xs: seq<CpuMetrics>, hi: real)
    requires xs != []
    requires forall i :: 0 <= i < |xs| ==> xs[i].totalUsage < hi
    ensures SumBy(xs, TotalUsage) < (|xs| as real) * hi
  {
    if |xs| > 1 {
      SumByBelow(xs[1..], hi);
    }
  }

  lemma QuotientAtLeast(s: real, n: real, lo: real)
    requires n > 0.0 && s >= n * lo
    ensures s / n >= lo
  {
    var q := s / n;
    assert q * n == s;
    assert (q - lo) * n >= 0.0;
  }

  lemma QuotientBelow(s: real, n: real, hi: real)
    requires n > 0.0 && s < n * hi
    ensures s / n < hi
  {
    var q := s / n;
    assert q * n == s;
    assert (hi - q) * n > 0.0;
  }

  lemma QuotientAbove(s: real, n: real, lo: real)
    requires n > 0.0 && s > n * lo
    ensures s / n > lo
  {
    var q := s / n;
    assert q * n == s;
    assert (q - lo) * n > 0.0;
  }

  lemma ProductPositive(a: real, b: real)
    requires a > 0.0 && b > 0.0
    ensures a * b > 0.0
  {
  }

  lemma AverageOfConstant(xs: seq<CpuMetrics>, c: real)
    requires xs != []
    requires forall i :: 0 <= i < |xs| ==> xs[i].totalUsage == c
    ensures Average(xs) == c
  {
    SumByConstant(xs, c);
    var n := |xs| as real;
    assert (n * c) / n == c;
  }

  lemma AverageAtLeast(xs: seq<CpuMetrics>, lo: real)
    requires xs != []
    requires forall i :: 0 <= i < |xs| ==> xs[i].totalUsage >= lo
    ensures Average(xs) >= lo
  {
    SumByAtLeast(xs, lo);
    QuotientAtLeast(SumBy(xs, TotalUsage), |xs| as real, lo);
  }

  lemma AverageBelow(xs: seq<CpuMetrics>, hi: real)
    requires xs != []
    requires forall i :: 0 <= i < |xs| ==> xs[i].totalUsage < hi
    ensures Average(xs) < hi
  {
    SumByBelow(xs, hi);
    QuotientBelow(SumBy(xs, TotalUsage), |xs| as real, hi);
  }

  /** A steady load has no trend once the history reaches past the newest five readings. */
  lemma SteadyLoadHasNoTrend(h: seq<CpuMetrics>, c: real)
    requires |h| >= 6
    requires forall i :: 0 <= i < |h| ==> h[i].totalUsage == c
    ensures CpuTrend(h) == Some(0.0)
  {
    RecentOfConstant(h, c);
    OlderOfConstant(h, c);
  }

  lemma RecentOfConstant(h: seq<CpuMetrics>, c: real)
    requires |h| >= 6
    requires forall i :: 0 <= i < |h| ==> h[i].totalUsage == c
    ensures Average(Recent(h)) == c
  {
    var r := Recent(h);
    assert forall i :: 0 <= i < |r| ==> r[i] == h[|h| - 5 + i];
    AverageOfConstant(r, c);
  }

  lemma OlderOfConstant(h: seq<CpuMetrics>, c: real)
    requires |h| >= 6
    requires forall i :: 0 <= i < |h| ==> h[i].totalUsage == c
    ensures Average(Older(h)) == c
  {
    var o := Older(h);
    assert forall i :: 0 <= i < |o| ==> o[i] == h[|h| - 5 - |o| + i];
    AverageOfConstant(o, c);
  }

  /** When every one of the newest five readings is at least `level` and every reading before
      them is below it, the trend is positive. */
  lemma RisingLoadHasPositiveTrend(h: seq<CpuMetrics>, level: real)
    requires |h| >= 6
    requires forall i :: |h| - 5 <= i < |h| ==> h[i].totalUsage >= level
    requires forall i :: 0 <= i < |h| - 5 ==> h[i].totalUsage < level
    ensures CpuTrend(h).Some? && CpuTrend(h).value > 0.0
  {
    RecentAtLeast(h, level);
    OlderBelow(h, level);
  }

  lemma RecentAtLeast(h: seq<CpuMetrics>, level: real)
    requires |h| >= 6
    requires forall i :: |h| - 5 <= i < |h| ==> h[i].totalUsage >= level
    ensures Average(Recent(h)) >= level
  {
    var r := Recent(h);
    assert forall i :: 0 <= i < |r| ==> r[i] == h[|h| - 5 + i];
    AverageAtLeast(r, level);
  }

  lemma OlderBelow(h: seq<CpuMetrics>, level: real)
    requires |h| >= 6
    requires forall i :: 0 <= i < |h| - 5 ==> h[i].totalUsage < level
    ensures Average(Older(h)) < level
  {
    var o := Older(h);
    assert forall i :: 0 <= i < |o| ==> o[i] == h[|h| - 5 - |o| + i];
    AverageBelow(o, level);
  }

  // ---------------------------------------------------------------------------
  // Bottlenecks

  datatype BottleneckType =
    | HighCpuUsage | HighIoWait | ExcessiveContextSwitching | ThermalThrottling | MemoryPressure

  /** A severity as the floating-point computation yields it: a division by a zero CPU count
      or a zero memory total gives an infinite value. */
  datatype Severity = Finite(value: real) | Infinite

  /** `CpuBottleneck`, without its formatted description. */
  datatype CpuBottleneck = CpuBottleneck(kind: BottleneckType, severity: Severity, affectedProcesses: seq<nat>)

  /** The position of a kind in the order `detect_bottlenecks` tests them. */
  function Rank(k: BottleneckType): nat {
    match k
    case HighCpuUsage => 0
    case ExcessiveContextSwitching => 1
    case MemoryPressure => 2
    case _ => 3
  }

  /** Used memory above nine tenths of the total; with a zero total the percentage is NaN
      (nothing used) or infinite (something used). */
  predicate MemoryPressured(used: nat, total: nat) {
    if total == 0 then used > 0 else 10 * used > 9 * total
  }

  function HighCpuCheck(r: SystemReading): seq<CpuBottleneck> {
    if r.globalUsage > 90.0 then [CpuBottleneck(HighCpuUsage, Finite(r.globalUsage / 100.0), [])] else []
  }

  function LoadCheck(r: SystemReading): seq<CpuBottleneck> {
    var cpus := |r.coreUsages| as real;
    if r.load.oneMinute > cpus * 2.0 then
      [CpuBottleneck(ExcessiveContextSwitching,
                     if cpus == 0.0 then Infinite else Finite((r.load.oneMinute / cpus) / 3.0), [])]
    else []
  }

  function MemoryCheck(r: SystemReading): seq<CpuBottleneck> {
    if r.totalMemory == 0 then
      (if r.usedMemory > 0 then [CpuBottleneck(MemoryPressure, Infinite, [])] else [])
    else
      var usage := (r.usedMemory as real) / (r.totalMemory as real) * 100.0;
      if usage > 90.0 then [CpuBottleneck(MemoryPressure, Finite(usage / 100.0), [])] else []
  }

  /** `detect_bottlenecks` on a reading. */
  function DetectBottlenecks(r: SystemReading): (bs: seq<CpuBottleneck>)
    ensures |bs| <= 3
    ensures forall i, j :: 0 <= i < j < |bs| ==> Rank(bs[i].kind) < Rank(bs[j].kind)
    ensures forall i :: 0 <= i < |bs| ==> Rank(bs[i].kind) < 3 && bs[i].affectedProcesses == []
  {
    HighCpuCheck(r) + LoadCheck(r) + MemoryCheck(r)
  }

  predicate Reports(bs: seq<CpuBottleneck>, k: BottleneckType) {
    exists i :: 0 <= i < |bs| && bs[i].kind == k
  }

  /** A concatenation reports a kind when one of its parts does. */
  lemma ReportsConcat(a: seq<CpuBottleneck>, b: seq<CpuBottleneck>, c: seq<CpuBottleneck>, k: BottleneckType)
    ensures Reports(a + b + c, k) <==> Reports(a, k) || Reports(b, k) || Reports(c, k)
  {
    var s := a + b + c;
    if Reports(a, k) {
      var i :| 0 <= i < |a| && a[i].kind == k;
      assert s[i] == a[i];
    }
    if Reports(b, k) {
      var i :| 0 <= i < |b| && b[i].kind == k;
      assert s[|a| + i] == b[i];
    }
    if Reports(c, k) {
      var i :| 0 <= i < |c| && c[i].kind == k;
      assert s[|a| + |b| + i] == c[i];
    }
  }

  /** A check reports its own kind when its list is not empty, and no other kind. */
  lemma ReportsOnly(xs: seq<CpuBottleneck>, own: BottleneckType, k: BottleneckType)
    requires forall i :: 0 <= i < |xs| ==> xs[i].kind == own
    ensures Reports(xs, k) <==> k == own && xs != []
  {
    if k == own && xs != [] {
      assert xs[0].kind == k;
    }
  }

  /** Each bottleneck is reported exactly when its threshold is crossed: total usage above
      90%, a one-minute load above twice the CPU count, memory use above 90%. */
  lemma BottleneckThresholds(r: SystemReading)
    ensures Reports(DetectBottlenecks(r), HighCpuUsage) <==> r.globalUsage > 90.0
    ensures Reports(DetectBottlenecks(r), ExcessiveContextSwitching)
            <==> r.load.oneMinute > 2.0 * (|r.coreUsages| as real)
    ensures Reports(DetectBottlenecks(r), MemoryPressure) <==> MemoryPressured(r.usedMemory, r.totalMemory)
    ensures !Reports(DetectBottlenecks(r), HighIoWait) && !Reports(DetectBottlenecks(r), ThermalThrottling)
  {
    var a, b, c := HighCpuCheck(r), LoadCheck(r), MemoryCheck(r);
    assert DetectBottlenecks(r) == a + b + c;
    forall k | k in {HighCpuUsage, ExcessiveContextSwitching, MemoryPressure, HighIoWait, ThermalThrottling}
      ensures Reports(a + b + c, k) <==> (k == HighCpuUsage && a != []) || (k == ExcessiveContextSwitching && b != [])
                                         || (k == MemoryPressure && c != [])
    {
      ReportsConcat(a, b, c, k);
      ReportsOnly(a, HighCpuUsage, k);
      ReportsOnly(b, ExcessiveContextSwitching, k);
      ReportsOnly(c, MemoryPressure, k);
    }
    if r.totalMemory > 0 {
      MemoryThreshold(r.usedMemory, r.totalMemory);
    }
  }


  lemma MemoryThreshold(used: nat, total: nat)
    requires total > 0
    ensures (used as real) / (total as real) * 100.0 > 90.0 <==> 10 * used > 9 * total
  {
    var t, u := total as real, used as real;
    var q := u / t;
    assert q * t == u;
    if q > 0.9 {
      ProductPositive(q - 0.9, t);
      assert u - 0.9 * t == (q - 0.9) * t;
    }
    if u > t * 0.9 {
      QuotientAbove(u, t, 0.9);
    }
  }

  /** Every finite severity is above the level its test demands: 0.9 for CPU and memory, two
      thirds for load. */
  lemma SeverityAboveThreshold(r: SystemReading, i: nat)
    requires i < |DetectBottlenecks(r)| && DetectBottlenecks(r)[i].severity.Finite?
    ensures DetectBottlenecks(r)[i].severity.value > (if DetectBottlenecks(r)[i].kind == ExcessiveContextSwitching then 2.0 / 3.0 else 0.9)
  {
    var a, b, c := HighCpuCheck(r), LoadCheck(r), MemoryCheck(r);
    var bs := DetectBottlenecks(r);
    assert bs == a + b + c;
    if i >= |a| && i < |a| + |b| {
      var cpus := |r.coreUsages| as real;
      QuotientAtLeast(r.load.oneMinute, cpus, 2.0);
      var q := r.load.oneMinute / cpus;
      assert q > 2.0 by {
        assert q * cpus == r.load.oneMinute;
        assert (q - 2.0) * cpus > 0.0;
      }
    }
  }

  // ---------------------------------------------------------------------------
  // The analyzer

  /** `CpuAnalyzer`. */
  class Analyzer {
    var system: SystemReading
    var lastUpdateMs: nat
    var history: seq<CpuMetrics>

    predicate Valid()
      reads this
    {
      |history| <= MaxHistorySize
    }

    /** `CpuAnalyzer::new` at instant `nowMs`, with the first reading. */
    constructor (nowMs: nat, reading: SystemReading)
      ensures Valid() && system == reading && lastUpdateMs == nowMs && history == []
    {
      system := reading;
      lastUpdateMs := nowMs;
      history := [];
    }

    /** `refresh` at instant `nowMs`, the OS reporting `reading`: nothing happens within
        500 ms of the last update; otherwise the reading is taken and its metrics pushed. */
    method Refresh(nowMs: nat, reading: SystemReading)
      requires Valid()
      modifies this
      ensures Valid()
      ensures SaturatingSub(nowMs, old(lastUpdateMs)) < MinRefreshMs ==>
                system == old(system) && lastUpdateMs == old(lastUpdateMs) && history == old(history)
      ensures SaturatingSub(nowMs, old(lastUpdateMs)) >= MinRefreshMs ==>
                system == reading && lastUpdateMs == nowMs
                && history == Pushed(old(history), MetricsOf(reading))
                && history == KeepLast(old(history) + [MetricsOf(reading)], MaxHistorySize)
    {
      if SaturatingSub(nowMs, lastUpdateMs) < MinRefreshMs {
        return;
      }
      system := reading;
      var metrics := CurrentMetrics();
      PushedKeepsNewest(history, metrics);
      if |history| >= MaxHistorySize {
        history := history[1..];
      }
      history := history + [metrics];
      lastUpdateMs := nowMs;
    }

    function CurrentMetrics(): (m: CpuMetrics)
      reads this
      ensures m == MetricsOf(system)
    {
      MetricsOf(system)
    }

    function Bottlenecks(): seq<CpuBottleneck>
      reads this
    {
      DetectBottlenecks(system)
    }

    /** `get_cpu_trend`, with the saturating subtraction. */
    function Trend(): (t: Option<real>)
      reads this
      ensures t == CpuTrend(history)
    {
      CpuTrend(history)
    }
  }
}
