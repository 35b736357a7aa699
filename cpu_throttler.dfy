/** The self-throttling governor of the CPU monitor (monitors/cpu/src/cpu_throttler.rs):
    a three-state circuit breaker on the monitor's own CPU usage and a step function
    choosing the refresh interval. Instants are explicit millisecond counts; durations
    are milliseconds; CPU percentages are reals. */
module CpuThrottler {
  import opened Common
  import opened Seqs

  /** Usage (percent) above which the breaker counts time as "high". */
  const BreakerThreshold: real := 5.0
  /** How long usage must stay high before the breaker opens. */
  const BreakerDurationMs: nat := 10_000
  /** How long the breaker stays open before it half-opens. */
  const BreakerCooldownMs: nat := 30_000
  /** Samples kept in the usage history. */
  const HistoryCapacity: nat := 60

  datatype BreakerState = Closed | Open | HalfOpen

  /** The breaker's mutable fields as one value. */
  datatype Breaker = Breaker(state: BreakerState, triggeredAt: Option<nat>, highUsageStart: Option<nat>)

  /** `CircuitBreaker::new` and the state `reset` returns to. */
  const ClosedBreaker := Breaker(Closed, None, None)

  /** What every reachable breaker satisfies: it is closed exactly when no trigger time is
      recorded, and only a closed breaker tracks the start of high usage. */
  predicate WellFormed(b: Breaker) {
    (b.state == Closed <==> b.triggeredAt == None)
    && (b.state != Closed ==> b.highUsageStart == None)
  }

  /** `Instant::duration_since`, which saturates at zero. */
  function Elapsed(now: nat, since: nat): nat {
    SaturatingSub(now, since)
  }

  /** One `CircuitBreaker::update` at instant `now` with usage `cpu`. */
  function BreakerStep(b: Breaker, cpu: real, now: nat): (next: Breaker)
    ensures b.state == Closed && cpu <= BreakerThreshold ==> next == ClosedBreaker.(triggeredAt := b.triggeredAt)
    ensures b.state == Closed && next.state == Open
            ==> cpu > BreakerThreshold && b.highUsageStart.Some?
                && Elapsed(now, b.highUsageStart.value) > BreakerDurationMs
                && next.triggeredAt == Some(now) && next.highUsageStart == None
    ensures b.state == Open ==> next.state != Closed && next.triggeredAt == b.triggeredAt
    ensures b.state == Open && next.state == HalfOpen
            ==> b.triggeredAt.Some? && Elapsed(now, b.triggeredAt.value) > BreakerCooldownMs
    ensures b.state == HalfOpen ==> (next.state == Closed <==> cpu < BreakerThreshold)
    ensures b.state == HalfOpen ==> next.state != HalfOpen
    ensures next.state == HalfOpen ==> b.state == Open
  {
    match b.state
    case Closed =>
      if cpu > BreakerThreshold then
        (match b.highUsageStart
         case Some(start) =>
           if Elapsed(now, start) > BreakerDurationMs then Breaker(Open, Some(now), None) else b
         case None => b.(highUsageStart := Some(now)))
      else b.(highUsageStart := None)
    case Open =>
      (match b.triggeredAt
       case Some(triggered) => if Elapsed(now, triggered) > BreakerCooldownMs then b.(state := HalfOpen) else b
       case None => b)
    case HalfOpen =>
      if cpu < BreakerThreshold then b.(state := Closed, triggeredAt := None)
      else b.(state := Open, triggeredAt := Some(now))
  }

  /** Every update keeps the breaker well formed. */
  lemma BreakerStepWellFormed(b: Breaker, cpu: real, now: nat)
    requires WellFormed(b)
    ensures WellFormed(BreakerStep(b, cpu, now))
  {
  }

  /** The breaker after a run of `(instant, usage)` updates, oldest first. */
  function Run(b: Breaker, samples: seq<(nat, real)>): Breaker {
    if samples == [] then b
    else
      var last := samples[|samples| - 1];
      BreakerStep(Run(b, samples[..|samples| - 1]), last.1, last.0)
  }

  /** High usage that has not yet lasted more than ten seconds leaves the breaker closed,
      remembering when the high usage started: eleven samples of 6% taken 100ms apart do not
      open it. */
  lemma {:induction false} ShortBurstKeepsBreakerClosed(samples: seq<(nat, real)>)
    requires samples != []
    requires forall i :: 0 <= i < |samples| ==> samples[i].1 > BreakerThreshold
    requires forall i :: 0 <= i < |samples| ==> Elapsed(samples[i].0, samples[0].0) <= BreakerDurationMs
    ensures Run(ClosedBreaker, samples) == ClosedBreaker.(highUsageStart := Some(samples[0].0))
  {
    var prefix := samples[..|samples| - 1];
    if prefix != [] {
      assert prefix[0] == samples[0];
      ShortBurstKeepsBreakerClosed(prefix);
    } else {
      assert Run(ClosedBreaker, prefix) == ClosedBreaker;
    }
  }

  /** Once high usage has been tracked, the breaker opens on the first high sample more than
      ten seconds after its start, and not before. */
  lemma OpensAfterSustainedHighUsage(start: nat, cpu: real, now: nat)
    requires cpu > BreakerThreshold
    ensures var next := BreakerStep(ClosedBreaker.(highUsageStart := Some(start)), cpu, now);
            (next.state == Open <==> Elapsed(now, start) > BreakerDurationMs)
            && (next.state == Open ==> next == Breaker(Open, Some(now), None))
  {
  }

  /** An open breaker stays open through any number of updates that come within the
      cooldown of its trigger. */
  lemma {:induction false} OpenDuringCooldown(b: Breaker, samples: seq<(nat, real)>)
    requires b.state == Open && b.triggeredAt.Some?
    requires forall i :: 0 <= i < |samples| ==> Elapsed(samples[i].0, b.triggeredAt.value) <= BreakerCooldownMs
    ensures Run(b, samples) == b
  {
    if samples != [] {
      OpenDuringCooldown(b, samples[..|samples| - 1]);
    }
  }

  /** A half-open breaker closes on low usage and re-opens, re-triggered now, otherwise. */
  lemma HalfOpenResolves(b: Breaker, cpu: real, now: nat)
    requires b.state == HalfOpen
    ensures var next := BreakerStep(b, cpu, now);
            (cpu < BreakerThreshold ==> next.state == Closed && next.triggeredAt == None)
            && (cpu >= BreakerThreshold ==> next.state == Open && next.triggeredAt == Some(now))
  {
  }

  /** `calculate_interval` on explicit inputs: an open breaker gives 10s; otherwise the usage
      picks 10s above 5%, 5s above the limit, 2s above 1%, and the base interval below. */
  function IntervalFor(breakerOpen: bool, usage: real, maxCpu: real, baseMs: nat): (ms: nat)
    ensures breakerOpen ==> ms == 10_000
    ensures ms == 10_000 || ms == 5_000 || ms == 2_000 || ms == baseMs
    ensures !breakerOpen && usage <= 1.0 && usage <= maxCpu ==> ms == baseMs
  {
    if breakerOpen then 10_000
    else if usage > 5.0 then 10_000
    else if usage > maxCpu then 5_000
    else if usage > 1.0 then 2_000
    else baseMs
  }

  /** With a base interval of at most 2s, more usage never gives a shorter interval. */
  lemma IntervalMonotone(u1: real, u2: real, maxCpu: real, baseMs: nat)
    requires baseMs <= 2_000 && u1 <= u2
    ensures IntervalFor(false, u1, maxCpu, baseMs) <= IntervalFor(false, u2, maxCpu, baseMs)
  {
  }

  /** The adaptive-interval example: limit 2%, base 1s; 0.5, 1.5, 3.0 and 6.0 percent give
      1, 2, 5 and 10 seconds. */
  lemma AdaptiveIntervalsExample()
    ensures IntervalFor(false, 0.5, 2.0, 1_000) == 1_000
    ensures IntervalFor(false, 1.5, 2.0, 1_000) == 2_000
    ensures IntervalFor(false, 3.0, 2.0, 1_000) == 5_000
    ensures IntervalFor(false, 6.0, 2.0, 1_000) == 10_000
  {
  }

  /** The usages recorded strictly after `cutoff`, oldest first. */
  function InWindow(history: seq<(nat, real)>, cutoff: int): (w: seq<real>)
    ensures |w| <= |history|
    ensures forall x :: x in w <==> exists i :: 0 <= i < |history| && history[i].0 > cutoff && history[i].1 == x
  {
    if history == [] then []
    else
      var rest := InWindow(history[..|history| - 1], cutoff);
      var last := history[|history| - 1];
      assert forall i :: 0 <= i < |history| - 1 ==> history[..|history| - 1][i] == history[i];
      if last.0 > cutoff then rest + [last.1] else rest
  }

  function SumReal(xs: seq<real>): real {
    if xs == [] then 0.0 else SumReal(xs[..|xs| - 1]) + xs[|xs| - 1]
  }

  lemma SumThree(a: real, b: real, c: real)
    ensures SumReal([a, b, c]) == a + b + c
  {
    assert [a, b, c][..2] == [a, b] && [a, b][..1] == [a] && [a][..0] == [];
    assert SumReal([a]) == a;
    assert SumReal([a, b]) == a + b;
  }

  /** `get_average_usage(seconds)` at instant `now`: the mean of the usages recorded in the
      last `seconds` seconds, or the current usage when there are none. */
  function AverageUsage(history: seq<(nat, real)>, current: real, seconds: nat, now: nat): (avg: real)
    ensures InWindow(history, now - seconds * 1000) == [] ==> avg == current
    ensures var w := InWindow(history, now - seconds * 1000);
            w != [] ==> avg * (|w| as real) == SumReal(w)
  {
    var w := InWindow(history, now - seconds * 1000);
    if w == [] then current else SumReal(w) / (|w| as real)
  }

  lemma {:induction false} SumRealBounds(xs: seq<real>, lo: real, hi: real)
    requires forall x :: x in xs ==> lo <= x <= hi
    ensures lo * (|xs| as real) <= SumReal(xs) <= hi * (|xs| as real)
  {
    if xs != [] {
      var init := xs[..|xs| - 1];
      assert forall x :: x in init ==> x in xs;
      assert xs[|xs| - 1] in xs;
      SumRealBounds(init, lo, hi);
    }
  }

  lemma BetweenByProduct(avg: real, n: real, total: real, lo: real, hi: real)
    requires n > 0.0 && avg * n == total && lo * n <= total <= hi * n
    ensures lo <= avg <= hi
  {
    assert (avg - lo) * n >= 0.0 && (hi - avg) * n >= 0.0;
  }

  /** The average of a non-empty window lies between bounds on the samples in the window. */
  lemma AverageWithinBounds(history: seq<(nat, real)>, current: real, seconds: nat, now: nat, lo: real, hi: real)
    requires exists i :: 0 <= i < |history| && history[i].0 > now - seconds * 1000
    requires forall i :: 0 <= i < |history| && history[i].0 > now - seconds * 1000 ==> lo <= history[i].1 <= hi
    ensures lo <= AverageUsage(history, current, seconds, now) <= hi
  {
    var w := InWindow(history, now - seconds * 1000);
    var k :| 0 <= k < |history| && history[k].0 > now - seconds * 1000;
    assert history[k].1 in w;
    SumRealBounds(w, lo, hi);
    BetweenByProduct(AverageUsage(history, current, seconds, now), |w| as real, SumReal(w), lo, hi);
  }

  /** The average-usage example: 1%, 2% and 3% just recorded average to 2%, inside (1.5, 2.5). */
  lemma AverageUsageExample(now: nat)
    ensures var avg := AverageUsage([(now, 1.0), (now, 2.0), (now, 3.0)], 3.0, 5, now);
            avg == 2.0 && 1.5 < avg < 2.5
  {
    var h := [(now, 1.0), (now, 2.0), (now, 3.0)];
    assert h[..2][..1] == [(now, 1.0)] && h[..2] == [(now, 1.0), (now, 2.0)];
    assert InWindow([(now, 1.0)], now - 5000) == [1.0];
    assert InWindow(h[..2], now - 5000) == [1.0, 2.0];
    assert InWindow(h, now - 5000) == [1.0, 2.0, 3.0];
    SumThree(1.0, 2.0, 3.0);
  }

  /** `should_skip_update` on explicit inputs: skip while the breaker is open, or while the
      five-second average exceeds one and a half times the limit. */
  function SkipFor(breakerOpen: bool, history: seq<(nat, real)>, current: real, maxCpu: real, now: nat): (skip: bool)
    ensures skip <==> breakerOpen || AverageUsage(history, current, 5, now) > maxCpu * 1.5
  {
    breakerOpen || AverageUsage(history, current, 5, now) > maxCpu * 1.5
  }

  /** The breaker example: eleven samples of 6% about 100ms apart, with a 2% limit, make the
      throttler skip updates through the average, while the breaker itself stays closed. */
  lemma SustainedHighUsageSkipsByAverage(samples: seq<(nat, real)>, now: nat)
    requires |samples| == 11
    requires forall i :: 0 <= i < 11 ==> samples[i] == (samples[0].0 + 100 * i, 6.0)
    requires now == samples[10].0
    ensures Run(ClosedBreaker, samples).state == Closed
    ensures SkipFor(false, samples, 6.0, 2.0, now)
  {
    ShortBurstKeepsBreakerClosed(samples);
    assert samples[10].0 > now - 5 * 1000;
    AverageWithinBounds(samples, 6.0, 5, now, 6.0, 6.0);
  }

  /** The `pop_front` loop of `update_usage`: drop the oldest entries until at most
      `capacity` remain. */
  method DropOldest<T>(full: seq<T>, capacity: nat) returns (kept: seq<T>)
    ensures kept == KeepLast(full, capacity)
  {
    kept := full;
    while |kept| > capacity
      invariant kept == full[|full| - |kept|..]
      invariant |full| > capacity ==> |kept| >= capacity
      invariant |full| <= capacity ==> kept == full
    {
      kept := kept[1..];
    }
    assert |full| > capacity ==> |kept| == capacity;
  }

  /** `CircuitBreaker`: the breaker whose fields `update` and `reset` change in place. */
  class CircuitBreaker {
    var state: BreakerState
    var triggeredAt: Option<nat>
    var highUsageStart: Option<nat>

    function Value(): Breaker
      reads this
    {
      Breaker(state, triggeredAt, highUsageStart)
    }

    predicate Valid()
      reads this
    {
      WellFormed(Value())
    }

    /** `CircuitBreaker::new`. */
    constructor ()
      ensures Value() == ClosedBreaker && Valid()
    {
      state, triggeredAt, highUsageStart := Closed, None, None;
    }

    /** `update(cpu_percent)` at instant `now`. */
    method Update(cpu: real, now: nat)
      requires Valid()
      modifies this
      ensures Valid()
      ensures Value() == BreakerStep(old(Value()), cpu, now)
    {
      BreakerStepWellFormed(Value(), cpu, now);
      match state
      case Closed =>
        if cpu > BreakerThreshold {
          match highUsageStart {
            case Some(start) =>
              if Elapsed(now, start) > BreakerDurationMs {
                state, triggeredAt, highUsageStart := Open, Some(now), None;
              }
            case None =>
              highUsageStart := Some(now);
          }
        } else {
          highUsageStart := None;
        }
      case Open =>
        match triggeredAt {
          case Some(triggered) =>
            if Elapsed(now, triggered) > BreakerCooldownMs {
              state := HalfOpen;
            }
          case None =>
        }
      case HalfOpen =>
        if cpu < BreakerThreshold {
          state, triggeredAt := Closed, None;
        } else {
          state, triggeredAt := Open, Some(now);
        }
    }

    /** `is_open`: only the Open state counts, so a half-open breaker throttles nothing. */
    function IsOpen(): (open: bool)
      reads this
      ensures open <==> state == Open
    {
      state == Open
    }

    /** `reset`. */
    method Reset()
      modifies this
      ensures Value() == ClosedBreaker && Valid()
    {
      state, triggeredAt, highUsageStart := Closed, None, None;
    }
  }

  /** `ThrottleStats`. */
  datatype ThrottleStats = ThrottleStats(
    currentUsage: real,
    averageUsage5s: real,
    averageUsage60s: real,
    currentIntervalMs: nat,
    breakerState: string,
    isThrottled: bool)

  /** The `Debug` name of a breaker state. */
  function StateName(s: BreakerState): (name: string)
    ensures name in {"Closed", "Open", "HalfOpen"}
  {
    match s
    case Closed => "Closed"
    case Open => "Open"
    case HalfOpen => "HalfOpen"
  }

  /** Distinct states have distinct names. */
  lemma StateNamesDistinct(s: BreakerState, t: BreakerState)
    requires StateName(s) == StateName(t)
    ensures s == t
  {
  }

  /** `CpuThrottler`: the monitor's own usage, its history and the breaker. */
  class Throttler {
    var maxCpuPercent: real
    var currentUsage: real
    var baseIntervalMs: nat
    var sampleIntervalMs: nat
    var usageHistory: seq<(nat, real)>
    const breaker: CircuitBreaker

    predicate Valid()
      reads this, breaker
    {
      |usageHistory| <= HistoryCapacity && breaker.Valid()
    }

    /** `CpuThrottler::new(max_cpu_percent, base_interval)`; `Default` is `(2.0, 1s)`. */
    constructor (maxCpu: real, baseMs: nat)
      ensures Valid() && fresh(breaker)
      ensures maxCpuPercent == maxCpu && currentUsage == 0.0
      ensures baseIntervalMs == baseMs && sampleIntervalMs == baseMs
      ensures usageHistory == [] && breaker.Value() == ClosedBreaker
    {
      maxCpuPercent, currentUsage := maxCpu, 0.0;
      baseIntervalMs, sampleIntervalMs := baseMs, baseMs;
      usageHistory := [];
      breaker := new CircuitBreaker();
    }

    /** `calculate_interval`. */
    function CalculateInterval(): (ms: nat)
      reads this, breaker
      ensures ms == IntervalFor(breaker.IsOpen(), currentUsage, maxCpuPercent, baseIntervalMs)
    {
      IntervalFor(breaker.IsOpen(), currentUsage, maxCpuPercent, baseIntervalMs)
    }

    /** `update_usage(cpu_percent)` at instant `now`: record the sample, keep the newest 60,
        step the breaker, then re-derive the interval from the new state. */
    method UpdateUsage(cpu: real, now: nat)
      requires Valid()
      modifies this, breaker
      ensures Valid()
      ensures currentUsage == cpu
      ensures usageHistory == KeepLast(old(usageHistory) + [(now, cpu)], HistoryCapacity)
      ensures breaker.Value() == BreakerStep(old(breaker.Value()), cpu, now)
      ensures sampleIntervalMs == IntervalFor(breaker.state == Open, cpu, maxCpuPercent, baseIntervalMs)
      ensures maxCpuPercent == old(maxCpuPercent) && baseIntervalMs == old(baseIntervalMs)
    {
      currentUsage := cpu;
      usageHistory := DropOldest(usageHistory + [(now, cpu)], HistoryCapacity);
      breaker.Update(cpu, now);
      sampleIntervalMs := CalculateInterval();
    }

    /** `get_refresh_interval`. */
    function RefreshInterval(): (ms: nat)
      reads this
      ensures ms == sampleIntervalMs
    {
      sampleIntervalMs
    }

    /** `get_average_usage(seconds)` at instant `now`. */
    function AverageOver(seconds: nat, now: nat): (avg: real)
      reads this
      ensures avg == AverageUsage(usageHistory, currentUsage, seconds, now)
    {
      AverageUsage(usageHistory, currentUsage, seconds, now)
    }

    /** `should_skip_update` at instant `now`. */
    function ShouldSkipUpdate(now: nat): (skip: bool)
      reads this, breaker
      ensures skip == SkipFor(breaker.IsOpen(), usageHistory, currentUsage, maxCpuPercent, now)
    {
      SkipFor(breaker.IsOpen(), usageHistory, currentUsage, maxCpuPercent, now)
    }

    /** `get_stats` at instant `now`. */
    function Stats(now: nat): (s: ThrottleStats)
      reads this, breaker
      ensures s.currentUsage == currentUsage && s.currentIntervalMs == sampleIntervalMs
      ensures s.breakerState == StateName(breaker.state)
      ensures s.averageUsage5s == AverageOver(5, now) && s.averageUsage60s == AverageOver(60, now)
      ensures s.isThrottled == ShouldSkipUpdate(now)
    {
      ThrottleStats(currentUsage, AverageOver(5, now), AverageOver(60, now), sampleIntervalMs,
                    StateName(breaker.state), ShouldSkipUpdate(now))
    }

    /** `set_max_cpu`: the limit is clamped to [1, 50]. */
    method SetMaxCpu(percent: real)
      modifies this
      ensures maxCpuPercent == ClampReal(percent, 1.0, 50.0)
      ensures 1.0 <= maxCpuPercent <= 50.0
      ensures currentUsage == old(currentUsage) && usageHistory == old(usageHistory)
      ensures baseIntervalMs == old(baseIntervalMs) && sampleIntervalMs == old(sampleIntervalMs)
    {
      maxCpuPercent := if percent < 1.0 then 1.0 else if percent > 50.0 then 50.0 else percent;
    }

    /** `reset`: usage zeroed, history cleared, base interval restored, breaker closed. */
    method Reset()
      requires Valid()
      modifies this, breaker
      ensures Valid()
      ensures currentUsage == 0.0 && usageHistory == [] && sampleIntervalMs == baseIntervalMs
      ensures breaker.Value() == ClosedBreaker
      ensures maxCpuPercent == old(maxCpuPercent) && baseIntervalMs == old(baseIntervalMs)
    {
      currentUsage := 0.0;
      usageHistory := [];
      sampleIntervalMs := baseIntervalMs;
      breaker.Reset();
    }
  }
}
