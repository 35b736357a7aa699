/** The CPU history store: an in-memory window of recent samples plus one JSON-lines file
    per UTC day, indexed by date. The files are the `disk` field (path to lines, a line
    that does not parse being `None`); the clock and the directory listing are parameters. */
module CpuHistory {
  import opened Common
  import opened Seqs
  import opened Strings
  import opened Sorting
  import opened Calendar
  import SortedMap
  import CpuAnalyzer
  import ProcessMonitor

  datatype HistoryPoint = HistoryPoint(
    timestamp: nat,
    totalUsage: real,
    perCoreUsage: seq<real>,
    loadAverage: (real, real, real),
    frequencyMhz: nat,
    temperature: Option<real>,
    topProcesses: seq<ProcessMonitor.ProcessInfo>)

  datatype Config = Config(
    dataDirectory: string,
    maxPointsInMemory: nat,
    maxDaysToKeep: nat,
    compressionEnabled: bool,
    autoCleanupEnabled: bool,
    flushIntervalSeconds: nat)

  /** `Path::join` of a relative component. */
  function JoinPath(dir: string, name: string): (p: string)
    ensures EndsWith(p, name)
  {
    if dir == [] then name
    else if dir[|dir| - 1] == '/' then dir + name
    else dir + "/" + name
  }

  /** Joining two components in turn leaves both at the end, separated by one slash. */
  lemma JoinTwice(dir: string, a: string, b: string)
    requires a != [] && a[|a| - 1] != '/'
    ensures EndsWith(JoinPath(JoinPath(dir, a), b), a + "/" + b)
  {
    var base := JoinPath(dir, a);
    assert base[|base| - |a|..] == a;
    assert base[|base| - 1] == a[|a| - 1];
    var p := JoinPath(base, b);
    assert p == base + "/" + b;
    assert p[|p| - |a + "/" + b|..] == base[|base| - |a|..] + "/" + b;
  }

  /** `$HOME/.reaper/cpu_history` (`/tmp` without a home), a day of samples a minute apart,
      thirty days of files, a flush every five minutes. */
  function DefaultConfig(home: Option<string>): (c: Config)
    ensures EndsWith(c.dataDirectory, ".reaper/cpu_history")
    ensures c.maxPointsInMemory == 24 * 60 && c.flushIntervalSeconds == 5 * 60
  {
    JoinTwice(home.UnwrapOr("/tmp"), ".reaper", "cpu_history");
    assert ".reaper" + "/" + "cpu_history" == ".reaper/cpu_history";
    Config(JoinPath(JoinPath(home.UnwrapOr("/tmp"), ".reaper"), "cpu_history"), 1440, 30, true, true, 300)
  }

  // ---------------------------------------------------------------------------
  // File names

  const FilePrefix := "cpu_history_"
  const FileSuffix := ".jsonl"

  function FileName(date: string): string {
    FilePrefix + date + FileSuffix
  }

  /** The date in a file name, when the name has the history file form. */
  function ParseFileName(name: string): (date: Option<string>)
  {
    if StartsWith(name, FilePrefix) && EndsWith(name, FileSuffix) then
      var rest := name[|FilePrefix|..];
      if EndsWith(rest, FileSuffix) then Some(rest[..|rest| - |FileSuffix|]) else None
    else None
  }

  /** Exactly the names `FileName` produces are recognised, and they give their date back. */
  lemma FileNameRoundTrip(name: string, date: string)
    ensures ParseFileName(name) == Some(date) <==> name == FileName(date)
  {
    var n := FileName(date);
    assert n[..|FilePrefix|] == FilePrefix;
    assert n[|n| - |FileSuffix|..] == FileSuffix;
    var rest := n[|FilePrefix|..];
    assert rest == date + FileSuffix;
    assert rest[|rest| - |FileSuffix|..] == FileSuffix;
    assert rest[..|rest| - |FileSuffix|] == date;
    if ParseFileName(name) == Some(date) {
      var r := name[|FilePrefix|..];
      assert name == name[..|FilePrefix|] + r;
      assert r == r[..|r| - |FileSuffix|] + r[|r| - |FileSuffix|..];
    }
  }

  // ---------------------------------------------------------------------------
  // Reading and writing lines

  function Parsed(line: Option<HistoryPoint>): Option<HistoryPoint> {
    line
  }

  function Written(p: HistoryPoint): Option<HistoryPoint> {
    Some(p)
  }

  /** The points of a file: its parsable lines in order; a missing file has none. */
  function Load(disk: map<string, seq<Option<HistoryPoint>>>, path: string): seq<HistoryPoint> {
    if path in disk then FilterMap(disk[path], Parsed) else []
  }

  /** A point read from a file is one of its lines; every line that parses is read. */
  lemma LoadSkipsBadLines(disk: map<string, seq<Option<HistoryPoint>>>, path: string, p: HistoryPoint)
    requires path in disk
    ensures p in Load(disk, path) <==> Some(p) in disk[path]
  {
    FilterMapMember(disk[path], Parsed, p);
    if Some(p) in disk[path] {
      var i :| 0 <= i < |disk[path]| && disk[path][i] == Some(p);
      assert Parsed(disk[path][i]) == Some(p);
    }
  }

  lemma {:induction false} ReadBack(ps: seq<HistoryPoint>)
    ensures FilterMap(Map(ps, Written), Parsed) == ps
    decreases |ps|
  {
    if ps != [] {
      var m := Map(ps, Written);
      assert m[1..] == Map(ps[1..], Written);
      assert m == [m[0]] + m[1..];
      ReadBack(ps[1..]);
      assert ps == [ps[0]] + ps[1..];
    }
  }

  /** Lines appended by a flush read back as the flushed points, after what was there. */
  lemma LoadAfterFlush(disk: map<string, seq<Option<HistoryPoint>>>, path: string, ps: seq<HistoryPoint>)
    ensures Load(disk[path := (if path in disk then disk[path] else []) + Map(ps, Written)], path)
      == Load(disk, path) + ps
  {
    var existing := if path in disk then disk[path] else [];
    FilterMapAppend(existing, Map(ps, Written), Parsed);
    ReadBack(ps);
  }

  // ---------------------------------------------------------------------------
  // Range queries: `sort_by_key` (stable) and `dedup_by_key` on timestamps

  predicate InRange(p: HistoryPoint, start: nat, end: nat) {
    start <= p.timestamp <= end
  }

  /** The points of `xs` inside `[start, end]`, in order. */
  function Within(xs: seq<HistoryPoint>, start: nat, end: nat): seq<HistoryPoint>
  {
    if xs == [] then []
    else (if InRange(xs[0], start, end) then [xs[0]] else []) + Within(xs[1..], start, end)
  }

  /** Filtering a sequence grown at the back grows the filtered sequence at the back. */
  lemma {:induction false} WithinSnoc(xs: seq<HistoryPoint>, p: HistoryPoint, start: nat, end: nat)
    ensures Within(xs + [p], start, end) == Within(xs, start, end) + if InRange(p, start, end) then [p] else []
    decreases |xs|
  {
    var tail := if InRange(p, start, end) then [p] else [];
    if xs == [] {
      assert [p][1..] == [];
      assert Within([p], start, end) == tail + [];
    } else {
      var head := if InRange(xs[0], start, end) then [xs[0]] else [];
      assert (xs + [p])[0] == xs[0];
      assert (xs + [p])[1..] == xs[1..] + [p];
      assert Within(xs + [p], start, end) == head + Within(xs[1..] + [p], start, end);
      WithinSnoc(xs[1..], p, start, end);
      assert head + (Within(xs[1..], start, end) + tail) == (head + Within(xs[1..], start, end)) + tail;
    }
  }


  function FirstWithTime(xs: seq<HistoryPoint>, t: nat): (r: Option<HistoryPoint>)
    ensures r.Some? ==> r.value in xs && r.value.timestamp == t
    ensures r.None? <==> forall p :: p in xs ==> p.timestamp != t
  {
    if xs == [] then None
    else if xs[0].timestamp == t then Some(xs[0])
    else
      assert forall p :: p in xs ==> p == xs[0] || p in xs[1..];
      FirstWithTime(xs[1..], t)
  }

  predicate Nondecreasing(xs: seq<HistoryPoint>) {
    forall i, j :: 0 <= i < j < |xs| ==> xs[i].timestamp <= xs[j].timestamp
  }

  predicate StrictlyIncreasingTimes(xs: seq<HistoryPoint>) {
    forall i, j :: 0 <= i < j < |xs| ==> xs[i].timestamp < xs[j].timestamp
  }

  /** Insert before the first point that is not earlier, so that among equal timestamps the
      inserted point comes first. */
  function InsertByTime(p: HistoryPoint, ys: seq<HistoryPoint>): (r: seq<HistoryPoint>)
    ensures multiset(r) == multiset(ys) + multiset{p}
    ensures Nondecreasing(ys) ==> Nondecreasing(r)
  {
    if ys == [] || p.timestamp <= ys[0].timestamp then
      PrependSorted(p, ys);
      [p] + ys
    else
      var rest := InsertByTime(p, ys[1..]);
      assert ys == [ys[0]] + ys[1..];
      ConsSorted(ys, p, rest);
      [ys[0]] + rest
  }

  lemma PrependSorted(p: HistoryPoint, ys: seq<HistoryPoint>)
    requires ys == [] || p.timestamp <= ys[0].timestamp
    ensures Nondecreasing(ys) ==> Nondecreasing([p] + ys)
  {
    if Nondecreasing(ys) {
      var r := [p] + ys;
      forall i, j | 0 <= i < j < |r| ensures r[i].timestamp <= r[j].timestamp {
        assert r[j] == ys[j - 1];
        if i > 0 {
          assert r[i] == ys[i - 1];
        }
      }
    }
  }

  lemma ConsSorted(ys: seq<HistoryPoint>, p: HistoryPoint, rest: seq<HistoryPoint>)
    requires ys != [] && ys[0].timestamp < p.timestamp
    requires multiset(rest) == multiset(ys[1..]) + multiset{p}
    requires Nondecreasing(ys[1..]) ==> Nondecreasing(rest)
    ensures Nondecreasing(ys) ==> Nondecreasing([ys[0]] + rest)
  {
    if Nondecreasing(ys) {
      assert Nondecreasing(ys[1..]);
      var r := [ys[0]] + rest;
      forall q | q in rest ensures ys[0].timestamp <= q.timestamp {
        assert q in multiset(rest);
        if q != p {
          assert q in multiset(ys[1..]);
          var k :| 0 <= k < |ys[1..]| && ys[1..][k] == q;
          assert ys[k + 1] == q;
        }
      }
      forall i, j | 0 <= i < j < |r| ensures r[i].timestamp <= r[j].timestamp {
        assert r[j] == rest[j - 1];
        assert r[j] in rest;
        if i > 0 {
          assert r[i] == rest[i - 1];
        }
      }
    }
  }

  /** `sort_by_key(|p| p.timestamp)`: a stable insertion sort. */
  function SortByTime(xs: seq<HistoryPoint>): (r: seq<HistoryPoint>)
    ensures Nondecreasing(r)
    ensures multiset(r) == multiset(xs)
  {
    if xs == [] then []
    else
      assert xs == [xs[0]] + xs[1..];
      InsertByTime(xs[0], SortByTime(xs[1..]))
  }

  lemma {:induction false} InsertKeepsFirst(p: HistoryPoint, ys: seq<HistoryPoint>, t: nat)
    requires Nondecreasing(ys)
    ensures FirstWithTime(InsertByTime(p, ys), t) == if p.timestamp == t then Some(p) else FirstWithTime(ys, t)
    decreases |ys|
  {
    if ys != [] && p.timestamp > ys[0].timestamp {
      InsertKeepsFirst(p, ys[1..], t);
      if p.timestamp == t {
        assert ys[0].timestamp != t;
      }
    }
  }

  /** Stability: for every timestamp the sort puts first the point that came first. */
  lemma {:induction false} SortKeepsFirst(xs: seq<HistoryPoint>, t: nat)
    ensures FirstWithTime(SortByTime(xs), t) == FirstWithTime(xs, t)
    decreases |xs|
  {
    if xs != [] {
      SortKeepsFirst(xs[1..], t);
      InsertKeepsFirst(xs[0], SortByTime(xs[1..]), t);
    }
  }

  /** `dedup_by_key(|p| p.timestamp)`: drop each point whose timestamp equals the one kept
      just before it. */
  function DedupByTime(xs: seq<HistoryPoint>): (r: seq<HistoryPoint>)
    ensures |r| <= |xs|
    ensures forall q :: q in r ==> q in xs
    ensures xs != [] ==> r != [] && r[0] == xs[0]
    decreases |xs|
  {
    if |xs| <= 1 then xs
    else if xs[1].timestamp == xs[0].timestamp then
      var r := DedupByTime([xs[0]] + xs[2..]);
      assert forall q :: q in [xs[0]] + xs[2..] ==> q in xs;
      r
    else
      var rest := DedupByTime(xs[1..]);
      assert forall q :: q in xs[1..] ==> q in xs;
      [xs[0]] + rest
  }

  /** Deduplication keeps, for every timestamp, the first point carrying it. */
  lemma {:induction false} DedupKeepsFirst(xs: seq<HistoryPoint>, t: nat)
    ensures FirstWithTime(DedupByTime(xs), t) == FirstWithTime(xs, t)
    decreases |xs|
  {
    if |xs| > 1 {
      if xs[1].timestamp == xs[0].timestamp {
        var ys := [xs[0]] + xs[2..];
        DedupKeepsFirst(ys, t);
        if xs[0].timestamp != t {
          assert ys[1..] == xs[2..];
          assert FirstWithTime(xs, t) == FirstWithTime(xs[1..], t) == FirstWithTime(xs[2..], t);
        }
      } else {
        DedupKeepsFirst(xs[1..], t);
      }
    }
  }

  /** On sorted input nothing is left twice: timestamps strictly increase. */
  lemma {:induction false} DedupStrictlyIncreasing(xs: seq<HistoryPoint>)
    requires Nondecreasing(xs)
    ensures StrictlyIncreasingTimes(DedupByTime(xs))
    decreases |xs|
  {
    if |xs| > 1 {
      if xs[1].timestamp == xs[0].timestamp {
        var ys := [xs[0]] + xs[2..];
        assert Nondecreasing(ys) by {
          forall i, j | 0 <= i < j < |ys| ensures ys[i].timestamp <= ys[j].timestamp {
            assert ys[j] == xs[j + 1];
            if i > 0 {
              assert ys[i] == xs[i + 1];
            }
          }
        }
        DedupStrictlyIncreasing(ys);
      } else {
        var ys := xs[1..];
        DedupStrictlyIncreasing(ys);
        var rest := DedupByTime(ys);
        var r := [xs[0]] + rest;
        forall i, j | 0 <= i < j < |r| ensures r[i].timestamp < r[j].timestamp {
          assert r[j] == rest[j - 1];
          if i == 0 {
            assert rest[j - 1] in ys;
            var m :| 0 <= m < |ys| && ys[m] == rest[j - 1];
            assert xs[0].timestamp < xs[1].timestamp <= xs[m + 1].timestamp;
          } else {
            assert r[i] == rest[i - 1];
          }
        }
      }
    }
  }

  /** What a range query returns from the points it gathered: timestamps strictly increasing,
      and for each timestamp present exactly the first gathered point carrying it. */
  lemma SortDedupSpec(xs: seq<HistoryPoint>)
    ensures StrictlyIncreasingTimes(DedupByTime(SortByTime(xs)))
    ensures forall t :: FirstWithTime(DedupByTime(SortByTime(xs)), t) == FirstWithTime(xs, t)
    ensures forall q :: q in DedupByTime(SortByTime(xs)) ==> q in xs
  {
    DedupStrictlyIncreasing(SortByTime(xs));
    forall t ensures FirstWithTime(DedupByTime(SortByTime(xs)), t) == FirstWithTime(xs, t) {
      DedupKeepsFirst(SortByTime(xs), t);
      SortKeepsFirst(xs, t);
    }
    forall q | q in DedupByTime(SortByTime(xs)) ensures q in xs {
      assert q in multiset(SortByTime(xs));
    }
  }

  predicate DatedWithin(date: string, startDate: string, endDate: string) {
    !Less(date, startDate) && !Less(endDate, date)
  }

  /** The points in range of one index entry, when its date is between the two dates. */
  function EntryPoints(entry: (string, string), disk: map<string, seq<Option<HistoryPoint>>>,
                       startDate: string, endDate: string, start: nat, end: nat): seq<HistoryPoint>
  {
    if DatedWithin(entry.0, startDate, endDate) then Within(Load(disk, entry.1), start, end) else []
  }

  /** The file points a range query gathers: the files whose date lies between the two
      dates, in date order, each restricted to the time range. */
  function FilePointsWithin(files: SortedMap.Entries<string>, disk: map<string, seq<Option<HistoryPoint>>>,
                            startDate: string, endDate: string, start: nat, end: nat): seq<HistoryPoint>
  {
    if files == [] then []
    else
      EntryPoints(files[0], disk, startDate, endDate, start, end)
        + FilePointsWithin(files[1..], disk, startDate, endDate, start, end)
  }

  lemma FilePointsWithinSnoc(files: SortedMap.Entries<string>, i: nat, disk: map<string, seq<Option<HistoryPoint>>>,
                             startDate: string, endDate: string, start: nat, end: nat, acc: seq<HistoryPoint>)
    requires i < |files|
    ensures acc + FilePointsWithin(files[..i + 1], disk, startDate, endDate, start, end)
      == (acc + FilePointsWithin(files[..i], disk, startDate, endDate, start, end))
         + EntryPoints(files[i], disk, startDate, endDate, start, end)
  {
    assert files[..i + 1] == files[..i] + [files[i]];
    FilePointsAppend(files[..i], files[i], disk, startDate, endDate, start, end);
    var before := FilePointsWithin(files[..i], disk, startDate, endDate, start, end);
    var next := EntryPoints(files[i], disk, startDate, endDate, start, end);
    assert acc + (before + next) == (acc + before) + next;
  }

  lemma {:induction false} FilePointsAppend(files: SortedMap.Entries<string>, e: (string, string),
                                            disk: map<string, seq<Option<HistoryPoint>>>,
                                            startDate: string, endDate: string, start: nat, end: nat)
    ensures FilePointsWithin(files + [e], disk, startDate, endDate, start, end)
      == FilePointsWithin(files, disk, startDate, endDate, start, end)
         + EntryPoints(e, disk, startDate, endDate, start, end)
    decreases |files|
  {
    if files == [] {
      assert [e][1..] == [];
    } else {
      assert (files + [e])[1..] == files[1..] + [e];
      FilePointsAppend(files[1..], e, disk, startDate, endDate, start, end);
    }
  }

  /** `Within` keeps exactly the points inside the range. */
  lemma {:induction false} WithinMembers(xs: seq<HistoryPoint>, start: nat, end: nat)
    ensures forall p :: p in Within(xs, start, end) <==> p in xs && InRange(p, start, end)
    decreases |xs|
  {
    if xs != [] {
      WithinMembers(xs[1..], start, end);
      assert xs == [xs[0]] + xs[1..];
    }
  }

  /** Every gathered file point lies inside the range. */
  lemma {:induction false} FilePointsInRange(files: SortedMap.Entries<string>, disk: map<string, seq<Option<HistoryPoint>>>,
                                             startDate: string, endDate: string, start: nat, end: nat)
    ensures forall p :: p in FilePointsWithin(files, disk, startDate, endDate, start, end) ==> InRange(p, start, end)
    decreases |files|
  {
    if files != [] {
      FilePointsInRange(files[1..], disk, startDate, endDate, start, end);
      WithinMembers(Load(disk, files[0].1), start, end);
    }
  }

  /** The first point with a timestamp in a concatenation comes from the front part if it can. */
  lemma {:induction false} FirstWithTimeAppend(a: seq<HistoryPoint>, b: seq<HistoryPoint>, t: nat)
    ensures FirstWithTime(a + b, t) == if FirstWithTime(a, t).Some? then FirstWithTime(a, t) else FirstWithTime(b, t)
    decreases |a|
  {
    if a != [] {
      assert (a + b)[1..] == a[1..] + b;
      FirstWithTimeAppend(a[1..], b, t);
    } else {
      assert a + b == b;
    }
  }

  /** What `get_historical_data` answers: timestamps strictly increasing, every point inside
      the range, and for every buffered point in range, the first buffered point with its
      timestamp (buffered points win over file points with the same timestamp). */
  lemma RangeQuery(buffer: seq<HistoryPoint>, files: SortedMap.Entries<string>, disk: map<string, seq<Option<HistoryPoint>>>,
                   startDate: string, endDate: string, start: nat, end: nat)
    ensures var r := DedupByTime(SortByTime(Within(buffer, start, end)
                                            + FilePointsWithin(files, disk, startDate, endDate, start, end)));
            StrictlyIncreasingTimes(r) &&
            (forall p :: p in r ==> InRange(p, start, end)) &&
            (forall q :: q in buffer && InRange(q, start, end) ==>
               FirstWithTime(r, q.timestamp) == FirstWithTime(Within(buffer, start, end), q.timestamp) &&
               FirstWithTime(r, q.timestamp).Some?)
  {
    var a := Within(buffer, start, end);
    var b := FilePointsWithin(files, disk, startDate, endDate, start, end);
    SortDedupSpec(a + b);
    WithinMembers(buffer, start, end);
    FilePointsInRange(files, disk, startDate, endDate, start, end);
    forall q | q in buffer && InRange(q, start, end)
      ensures FirstWithTime(a + b, q.timestamp) == FirstWithTime(a, q.timestamp)
      ensures FirstWithTime(a, q.timestamp).Some?
    {
      FirstWithTimeAppend(a, b, q.timestamp);
    }
  }

  // ---------------------------------------------------------------------------
  // Statistics

  datatype Statistics = Statistics(
    duration: nat,
    dataPoints: nat,
    averageCpuUsage: real,
    maxCpuUsage: real,
    minCpuUsage: real,
    averageFrequencyMhz: real,
    averageLoad: (real, real, real))

  const F32Max: real := 340282346638528859811704183484516925440.0

  const NoStatistics := Statistics(0, 0, 0.0, 0.0, 0.0, 0.0, (0.0, 0.0, 0.0))

  function Usage(p: HistoryPoint): real {
    p.totalUsage
  }

  function Frequency(p: HistoryPoint): real {
    p.frequencyMhz as real
  }

  /** What `get_statistics` reports for a non-empty window. */
  predicate SummarizesRecent(s: Statistics, recent: seq<HistoryPoint>, durationS: nat)
    requires recent != []
  {
    var n := |recent| as real;
    s.duration == durationS && s.dataPoints == |recent| &&
    s.averageCpuUsage == SumBy(recent, Usage) / n &&
    s.averageFrequencyMhz == SumBy(recent, Frequency) / n &&
    s.averageLoad == recent[|recent| - 1].loadAverage &&
    IsMaxUsage(s.maxCpuUsage, recent) && IsMinUsage(s.minCpuUsage, recent)
  }

  /** `fold(0.0, f32::max)`: an upper bound of every usage, reached unless every usage is below 0. */
  predicate IsMaxUsage(m: real, xs: seq<HistoryPoint>) {
    0.0 <= m && (forall p :: p in xs ==> p.totalUsage <= m) &&
    (m == 0.0 || exists p :: p in xs && p.totalUsage == m)
  }

  /** `fold(f32::MAX, f32::min)`: a lower bound of every usage, reached unless all exceed `f32::MAX`. */
  predicate IsMinUsage(m: real, xs: seq<HistoryPoint>) {
    m <= F32Max && (forall p :: p in xs ==> m <= p.totalUsage) &&
    (m == F32Max || exists p :: p in xs && p.totalUsage == m)
  }

  /** The accumulation loop of `get_statistics`. */
  method UsageSummary(recent: seq<HistoryPoint>) returns (sum: real, max: real, min: real)
    ensures sum == SumBy(recent, Usage)
    ensures IsMaxUsage(max, recent) && IsMinUsage(min, recent)
  {
    sum, max, min := 0.0, 0.0, F32Max;
    var i := 0;
    while i < |recent|
      invariant 0 <= i <= |recent|
      invariant sum == SumBy(recent[..i], Usage)
      invariant IsMaxUsage(max, recent[..i]) && IsMinUsage(min, recent[..i])
    {
      SumBySnoc(recent[..i], recent[i], Usage);
      assert recent[..i + 1] == recent[..i] + [recent[i]];
      sum := sum + recent[i].totalUsage;
      max := MaxReal(max, recent[i].totalUsage);
      min := if recent[i].totalUsage < min then recent[i].totalUsage else min;
      i := i + 1;
    }
    assert recent[..i] == recent;
  }

  /** Points no older than `duration` seconds before `now` (the cutoff saturates at 0). */
  function RecentPoints(buffer: seq<HistoryPoint>, durationS: nat, nowS: nat): (r: seq<HistoryPoint>)
  {
    Filter(buffer, (p: HistoryPoint) => p.timestamp >= SaturatingSub(nowS, durationS))
  }

  /** The recent points are exactly the buffered ones at or after the cutoff, in buffer order. */
  lemma RecentPointsExactly(buffer: seq<HistoryPoint>, durationS: nat, nowS: nat, p: HistoryPoint)
    ensures p in RecentPoints(buffer, durationS, nowS)
      <==> p in buffer && (nowS >= durationS ==> p.timestamp >= nowS - durationS)
  {
    FilterMember(buffer, (p: HistoryPoint) => p.timestamp >= SaturatingSub(nowS, durationS), p);
  }

  /** Loading stops once the buffer holds `cap` points. */
  function Fill(buffer: seq<HistoryPoint>, points: seq<HistoryPoint>, cap: nat): (r: seq<HistoryPoint>)
    ensures |buffer| >= cap ==> r == buffer
    ensures |buffer| < cap ==> |r| <= cap
    ensures |r| >= |buffer| && r[..|buffer|] == buffer
  {
    if |buffer| >= cap then buffer else buffer + Truncate(points, cap - |buffer|)
  }

  /** Filling from two files in turn is filling from both at once. */
  lemma FillTwice(buffer: seq<HistoryPoint>, p: seq<HistoryPoint>, q: seq<HistoryPoint>, cap: nat)
    ensures Fill(Fill(buffer, p, cap), q, cap) == Fill(buffer, p + q, cap)
  {
    if |buffer| < cap {
      var n := cap - |buffer|;
      if |p| < n {
        TruncateAppendShort(p, q, n);
        assert Truncate(p, n) == p;
        assert buffer + (p + Truncate(q, n - |p|)) == (buffer + p) + Truncate(q, cap - |buffer + p|);
      } else {
        TruncateAppendLong(p, q, n);
      }
    }
  }

  /** The points `load_recent_data` reads: those of the (at most two) latest dates, oldest first. */
  function LatestFilePoints(files: SortedMap.Entries<string>, disk: map<string, seq<Option<HistoryPoint>>>,
                            dates: seq<string>): seq<HistoryPoint>
  {
    if dates == [] then []
    else
      LatestFilePoints(files, disk, dates[..|dates| - 1])
        + match SortedMap.Lookup(files, dates[|dates| - 1])
          case Some(path) => Load(disk, path)
          case None => []
  }

  lemma LatestFilePointsSnoc(files: SortedMap.Entries<string>, disk: map<string, seq<Option<HistoryPoint>>>,
                             dates: seq<string>, i: nat, path: string)
    requires i < |dates| && SortedMap.Lookup(files, dates[i]) == Some(path)
    ensures LatestFilePoints(files, disk, dates[..i + 1]) == LatestFilePoints(files, disk, dates[..i]) + Load(disk, path)
  {
    assert dates[..i + 1][..i] == dates[..i];
  }

  /** The paths of the index entries dated before `cutoff`. */
  function ExpiredPaths(files: SortedMap.Entries<string>, cutoff: string): set<string> {
    set i | 0 <= i < |files| && Less(files[i].0, cutoff) :: files[i].1
  }

  lemma ExpiredPathsSnoc(files: SortedMap.Entries<string>, e: (string, string), cutoff: string)
    ensures ExpiredPaths(files + [e], cutoff)
      == ExpiredPaths(files, cutoff) + (if Less(e.0, cutoff) then {e.1} else {})
  {
    var fs := files + [e];
    forall p | p in ExpiredPaths(fs, cutoff)
      ensures p in ExpiredPaths(files, cutoff) + (if Less(e.0, cutoff) then {e.1} else {})
    {
      var i :| 0 <= i < |fs| && Less(fs[i].0, cutoff) && fs[i].1 == p;
      if i < |files| {
        assert fs[i] == files[i];
      }
    }
    forall p | p in ExpiredPaths(files, cutoff) ensures p in ExpiredPaths(fs, cutoff) {
      var i :| 0 <= i < |files| && Less(files[i].0, cutoff) && files[i].1 == p;
      assert fs[i] == files[i];
    }
    if Less(e.0, cutoff) {
      assert fs[|files|] == e;
    }
  }

  /** One name of the listing: indexed under its date when it has the history form. */
  function DiscoverStep(files: SortedMap.Entries<string>, dir: string, name: string): (r: SortedMap.Entries<string>)
    requires SortedMap.Sorted(files)
    ensures SortedMap.Sorted(r)
  {
    match ParseFileName(name)
    case Some(date) => SortedMap.Insert(files, date, JoinPath(dir, name))
    case None => files
  }

  /** The index `discover_existing_files` builds: every listed name of the history form
      inserted under its date, in listing order. */
  function Discover(files: SortedMap.Entries<string>, dir: string, names: seq<string>): (r: SortedMap.Entries<string>)
    requires SortedMap.Sorted(files)
    ensures SortedMap.Sorted(r)
  {
    if names == [] then files
    else DiscoverStep(Discover(files, dir, names[..|names| - 1]), dir, names[|names| - 1])
  }

  lemma DiscoverStepLookup(files: SortedMap.Entries<string>, dir: string, name: string, date: string)
    requires SortedMap.Sorted(files)
    ensures SortedMap.Lookup(DiscoverStep(files, dir, name), date)
              == (if FileName(date) == name then Some(JoinPath(dir, name)) else SortedMap.Lookup(files, date))
  {
    FileNameRoundTrip(name, date);
    match ParseFileName(name) {
      case Some(d) =>
        SortedMap.InsertLookup(files, d, JoinPath(dir, name), date);
      case None =>
    }
  }

  /** A date is indexed by `Discover` exactly when its history file name is listed. */
  lemma {:induction false} DiscoverLookup(files: SortedMap.Entries<string>, dir: string, names: seq<string>, date: string)
    requires SortedMap.Sorted(files)
    ensures SortedMap.Lookup(Discover(files, dir, names), date)
              == (if FileName(date) in names then Some(JoinPath(dir, FileName(date)))
                  else SortedMap.Lookup(files, date))
  {
    if names != [] {
      var n := |names| - 1;
      var front := names[..n];
      var x := FileName(date);
      assert x in names <==> x in front || x == names[n] by {
        assert names == front + [names[n]];
      }
      var found := Discover(files, dir, front);
      assert Discover(files, dir, names) == DiscoverStep(found, dir, names[n]);
      DiscoverLookup(files, dir, front, date);
      DiscoverStepLookup(found, dir, names[n], date);
    }
  }

  /** The index a new store discovers in an empty state: nothing when the directory is missing. */
  function Found(c: Config, listing: Option<seq<string>>): (r: SortedMap.Entries<string>)
    ensures SortedMap.Sorted(r)
  {
    if listing.Some? then Discover([], c.dataDirectory, listing.value) else []
  }

  /** The date before which `cleanup_old_files` removes files. */
  function CleanupCutoff(c: Config, nowS: nat): string
    requires nowS / SecondsPerDay <= LastDay
  {
    DateString(SaturatingSub(nowS, c.maxDaysToKeep * SecondsPerDay))
  }

  class Store {
    var config: Config
    var memoryBuffer: seq<HistoryPoint>
    /** Date to file path, in date order. */
    var dailyFiles: SortedMap.Entries<string>
    var lastFlushTime: nat
    var currentDay: string
    /** The files of the data directory: path to lines. */
    var disk: map<string, seq<Option<HistoryPoint>>>

    predicate Valid()
      reads this
    {
      SortedMap.Sorted(dailyFiles)
    }

    function FilePathForDate(date: string): (path: string)
      reads this
      ensures EndsWith(path, FileName(date))
    {
      JoinPath(config.dataDirectory, FileName(date))
    }

    /** `new`: register the files found, load the latest two days, then drop expired files. */
    constructor (c: Config, nowS: nat, listing: Option<seq<string>>, files: map<string, seq<Option<HistoryPoint>>>)
      requires nowS / SecondsPerDay <= LastDay
      ensures Valid()
      ensures config == c && lastFlushTime == nowS && currentDay == DateString(nowS)
      ensures |memoryBuffer| <= c.maxPointsInMemory
      ensures memoryBuffer
                == Fill([], LatestFilePoints(Found(c, listing), files, SortedMap.GreatestKeys(Found(c, listing), 2)),
                        c.maxPointsInMemory)
      ensures forall date ::
                SortedMap.Lookup(dailyFiles, date)
                  == (if c.autoCleanupEnabled && Less(date, CleanupCutoff(c, nowS)) then None
                      else if listing.Some? && FileName(date) in listing.value
                      then Some(JoinPath(c.dataDirectory, FileName(date)))
                      else None)
      ensures c.autoCleanupEnabled ==> disk == files - ExpiredPaths(Found(c, listing), CleanupCutoff(c, nowS))
      ensures !c.autoCleanupEnabled ==> disk == files && dailyFiles == Found(c, listing)
    {
      config := c;
      memoryBuffer := [];
      dailyFiles := [];
      lastFlushTime := nowS;
      currentDay := DateString(nowS);
      disk := files;
      new;
      DiscoverExistingFiles(listing);
      LoadRecentData();
      if config.autoCleanupEnabled {
        CleanupOldFiles(nowS);
      }
    }

    /** Push the sample, drop the oldest beyond capacity, flush when the interval has passed. */
    method AddDataPoint(metrics: CpuAnalyzer.CpuMetrics, nowS: nat)
      requires Valid() && nowS / SecondsPerDay <= LastDay
      modifies this
      ensures Valid() && config == old(config)
      ensures memoryBuffer == KeepLast(old(memoryBuffer) + [PointOf(metrics, nowS)], config.maxPointsInMemory)
      ensures SaturatingSub(nowS, old(lastFlushTime)) < config.flushIntervalSeconds ==>
                disk == old(disk) && dailyFiles == old(dailyFiles) && lastFlushTime == old(lastFlushTime)
                && currentDay == old(currentDay)
      ensures SaturatingSub(nowS, old(lastFlushTime)) >= config.flushIntervalSeconds ==>
                lastFlushTime == nowS && currentDay == DateString(nowS) &&
                Load(disk, FilePathForDate(DateString(nowS)))
                  == Load(old(disk), FilePathForDate(DateString(nowS))) + memoryBuffer
      ensures SaturatingSub(nowS, old(lastFlushTime)) >= config.flushIntervalSeconds ==>
                forall k ::
                  SortedMap.Lookup(dailyFiles, k)
                    == (if k == DateString(nowS) then Some(FilePathForDate(k)) else SortedMap.Lookup(old(dailyFiles), k))
      ensures SaturatingSub(nowS, old(lastFlushTime)) >= config.flushIntervalSeconds ==>
                forall path :: path != FilePathForDate(DateString(nowS)) ==>
                  (path in disk <==> path in old(disk)) && (path in disk ==> disk[path] == old(disk)[path])
    {
      var point := PointOf(metrics, nowS);
      ghost var pushed := memoryBuffer + [point];
      memoryBuffer := memoryBuffer + [point];
      while |memoryBuffer| > config.maxPointsInMemory
        invariant config == old(config) && dailyFiles == old(dailyFiles) && disk == old(disk)
        invariant lastFlushTime == old(lastFlushTime) && currentDay == old(currentDay)
        invariant memoryBuffer == pushed[|pushed| - |memoryBuffer|..]
        invariant |memoryBuffer| >= config.maxPointsInMemory || memoryBuffer == pushed
        decreases |memoryBuffer|
      {
        memoryBuffer := memoryBuffer[1..];
      }
      var shouldFlush := SaturatingSub(nowS, lastFlushTime) >= config.flushIntervalSeconds;
      if shouldFlush {
        FlushToDisk(nowS);
      }
    }

    /** `get_recent_data`. */
    function GetRecentData(durationS: nat, nowS: nat): (r: seq<HistoryPoint>)
      reads this
      ensures |r| <= |memoryBuffer|
      ensures forall i :: 0 <= i < |r| ==> r[i] in memoryBuffer && r[i].timestamp >= SaturatingSub(nowS, durationS)
    {
      RecentPoints(memoryBuffer, durationS, nowS)
    }

    /** `get_historical_data`: buffered points in range, then the points in range of every
        file dated between the two dates, sorted by timestamp and deduplicated. */
    method GetHistoricalData(startS: nat, endS: nat) returns (r: seq<HistoryPoint>)
      requires startS / SecondsPerDay <= LastDay && endS / SecondsPerDay <= LastDay
      ensures r == DedupByTime(SortByTime(Within(memoryBuffer, startS, endS)
                     + FilePointsWithin(dailyFiles, disk, DateString(startS), DateString(endS), startS, endS)))
    {
      var results := Gather(memoryBuffer, startS, endS, []);
      assert results == Within(memoryBuffer, startS, endS);
      var startDate := DateString(startS);
      var endDate := DateString(endS);
      results := GatherFiles(startDate, endDate, startS, endS, results);
      r := DedupByTime(SortByTime(results));
    }

    /** The loop of `get_historical_data` over the index. */
    method GatherFiles(startDate: string, endDate: string, startS: nat, endS: nat, acc: seq<HistoryPoint>)
      returns (r: seq<HistoryPoint>)
      ensures r == acc + FilePointsWithin(dailyFiles, disk, startDate, endDate, startS, endS)
    {
      var files := dailyFiles;
      r := acc;
      var i := 0;
      while i < |files|
        invariant 0 <= i <= |files|
        invariant r == acc + FilePointsWithin(files[..i], disk, startDate, endDate, startS, endS)
      {
        FilePointsWithinSnoc(files, i, disk, startDate, endDate, startS, endS, acc);
        var points := GatherEntry(files[i], startDate, endDate, startS, endS);
        r := r + points;
        i := i + 1;
      }
      assert files[..i] == files;
    }

    /** One step of that loop: the points in range of a file dated between the two dates. */
    method GatherEntry(entry: (string, string), startDate: string, endDate: string, startS: nat, endS: nat)
      returns (points: seq<HistoryPoint>)
      ensures points == EntryPoints(entry, disk, startDate, endDate, startS, endS)
    {
      points := [];
      if DatedWithin(entry.0, startDate, endDate) {
        var data := LoadDataFromFile(entry.1);
        points := Gather(data, startS, endS, []);
      }
    }

    /** The inner loop of `get_historical_data` over one source: push the points in range. */
    static method Gather(points: seq<HistoryPoint>, startS: nat, endS: nat, acc: seq<HistoryPoint>)
      returns (r: seq<HistoryPoint>)
      ensures r == acc + Within(points, startS, endS)
    {
      r := acc;
      var i := 0;
      while i < |points|
        invariant 0 <= i <= |points|
        invariant r == acc + Within(points[..i], startS, endS)
      {
        assert points[..i + 1] == points[..i] + [points[i]];
        WithinSnoc(points[..i], points[i], startS, endS);
        if points[i].timestamp >= startS && points[i].timestamp <= endS {
          r := r + [points[i]];
        }
        i := i + 1;
      }
      assert points[..i] == points;
    }

    /** `get_statistics`: nothing for no recent points; otherwise the count, the mean, the
        extremes, the mean frequency and the newest load average. */
    method GetStatistics(durationS: nat, nowS: nat) returns (s: Statistics)
      ensures GetRecentData(durationS, nowS) == [] ==> s == NoStatistics
      ensures GetRecentData(durationS, nowS) != [] ==>
                SummarizesRecent(s, GetRecentData(durationS, nowS), durationS)
    {
      var recent := GetRecentData(durationS, nowS);
      if recent == [] {
        return NoStatistics;
      }
      var sum, max, min := UsageSummary(recent);
      var n := |recent| as real;
      s := Statistics(durationS, |recent|, sum / n, max, min, SumBy(recent, Frequency) / n, recent[|recent| - 1].loadAverage);
    }

    /** `flush_to_disk`: index today's file and append every buffered point to it. */
    method FlushToDisk(nowS: nat)
      requires Valid() && nowS / SecondsPerDay <= LastDay
      modifies this
      ensures Valid()
      ensures config == old(config) && memoryBuffer == old(memoryBuffer)
      ensures currentDay == DateString(nowS) && lastFlushTime == nowS
      ensures forall k ::
                SortedMap.Lookup(dailyFiles, k)
                  == (if k == DateString(nowS) then Some(FilePathForDate(k)) else SortedMap.Lookup(old(dailyFiles), k))
      ensures var path := FilePathForDate(DateString(nowS));
              disk == old(disk)[path := (if path in old(disk) then old(disk)[path] else []) + Map(memoryBuffer, Written)]
      ensures Load(disk, FilePathForDate(DateString(nowS)))
                == Load(old(disk), FilePathForDate(DateString(nowS))) + memoryBuffer
    {
      var currentDate := DateString(nowS);
      if currentDate != currentDay {
        currentDay := currentDate;
      }
      var path := FilePathForDate(currentDate);
      IndexFile(currentDate, path);
      var existing := if path in disk then disk[path] else [];
      var lines := AppendLines(existing, memoryBuffer);
      LoadAfterFlush(disk, path, memoryBuffer);
      disk := disk[path := lines];
      lastFlushTime := nowS;
    }

    /** `daily_files.insert(date, path)`. */
    method IndexFile(date: string, path: string)
      requires Valid()
      modifies this
      ensures Valid()
      ensures config == old(config) && memoryBuffer == old(memoryBuffer) && disk == old(disk)
      ensures lastFlushTime == old(lastFlushTime) && currentDay == old(currentDay)
      ensures forall k ::
                SortedMap.Lookup(dailyFiles, k)
                  == (if k == date then Some(path) else SortedMap.Lookup(old(dailyFiles), k))
    {
      forall k
        ensures SortedMap.Lookup(SortedMap.Insert(dailyFiles, date, path), k)
                  == (if k == date then Some(path) else SortedMap.Lookup(dailyFiles, k))
      {
        SortedMap.InsertLookup(dailyFiles, date, path, k);
      }
      dailyFiles := SortedMap.Insert(dailyFiles, date, path);
    }

    /** The write loop of `flush_to_disk`: one line per buffered point, after the existing ones. */
    static method AppendLines(existing: seq<Option<HistoryPoint>>, points: seq<HistoryPoint>)
      returns (lines: seq<Option<HistoryPoint>>)
      ensures lines == existing + Map(points, Written)
    {
      lines := existing;
      var i := 0;
      while i < |points|
        invariant 0 <= i <= |points|
        invariant lines == existing + Map(points[..i], Written)
      {
        MapAppend(points[..i], [points[i]], Written);
        assert points[..i + 1] == points[..i] + [points[i]];
        lines := lines + [Written(points[i])];
        i := i + 1;
      }
      assert points[..i] == points;
    }

    /** `cleanup_old_files`: forget, and delete, the files dated before the day
        `max_days_to_keep` days ago. */
    method CleanupOldFiles(nowS: nat)
      requires Valid() && nowS / SecondsPerDay <= LastDay
      modifies this
      ensures Valid()
      ensures config == old(config) && memoryBuffer == old(memoryBuffer)
      ensures lastFlushTime == old(lastFlushTime) && currentDay == old(currentDay)
      ensures var cutoff := DateString(SaturatingSub(nowS, old(config).maxDaysToKeep * SecondsPerDay));
              (forall k ::
                 SortedMap.Lookup(dailyFiles, k)
                   == (if Less(k, cutoff) then None else SortedMap.Lookup(old(dailyFiles), k))) &&
              disk == old(disk) - ExpiredPaths(old(dailyFiles), cutoff)
    {
      var cutoff := DateString(SaturatingSub(nowS, config.maxDaysToKeep * SecondsPerDay));
      var toRemove := DeleteExpired(cutoff);
      ForgetDates(toRemove, cutoff);
    }

    /** The first loop of `cleanup_old_files`: delete the expired files, collecting their dates. */
    method DeleteExpired(cutoff: string) returns (toRemove: seq<string>)
      modifies this
      ensures config == old(config) && memoryBuffer == old(memoryBuffer) && dailyFiles == old(dailyFiles)
      ensures lastFlushTime == old(lastFlushTime) && currentDay == old(currentDay)
      ensures forall k :: k in toRemove <==> exists j :: 0 <= j < |dailyFiles| && dailyFiles[j].0 == k && Less(k, cutoff)
      ensures disk == old(disk) - ExpiredPaths(dailyFiles, cutoff)
    {
      toRemove := [];
      var i := 0;
      while i < |dailyFiles|
        invariant 0 <= i <= |dailyFiles|
        invariant config == old(config) && memoryBuffer == old(memoryBuffer) && dailyFiles == old(dailyFiles)
        invariant lastFlushTime == old(lastFlushTime) && currentDay == old(currentDay)
        invariant forall k :: k in toRemove <==> exists j :: 0 <= j < i && dailyFiles[j].0 == k && Less(k, cutoff)
        invariant disk == old(disk) - ExpiredPaths(dailyFiles[..i], cutoff)
      {
        var (date, path) := dailyFiles[i];
        ExpiredPathsSnoc(dailyFiles[..i], (date, path), cutoff);
        assert dailyFiles[..i + 1] == dailyFiles[..i] + [(date, path)];
        if Less(date, cutoff) {
          if path in disk {
            disk := disk - {path};
          }
          toRemove := toRemove + [date];
        }
        i := i + 1;
      }
      assert dailyFiles[..i] == dailyFiles;
    }

    /** The second loop of `cleanup_old_files`: drop the collected dates from the index. */
    method ForgetDates(toRemove: seq<string>, cutoff: string)
      requires Valid()
      requires forall k :: k in toRemove <==> exists j :: 0 <= j < |dailyFiles| && dailyFiles[j].0 == k && Less(k, cutoff)
      modifies this
      ensures Valid()
      ensures config == old(config) && memoryBuffer == old(memoryBuffer) && disk == old(disk)
      ensures lastFlushTime == old(lastFlushTime) && currentDay == old(currentDay)
      ensures forall k ::
                SortedMap.Lookup(dailyFiles, k)
                  == (if Less(k, cutoff) then None else SortedMap.Lookup(old(dailyFiles), k))
    {
      var j := 0;
      while j < |toRemove|
        invariant 0 <= j <= |toRemove|
        invariant Valid()
        invariant config == old(config) && memoryBuffer == old(memoryBuffer) && disk == old(disk)
        invariant lastFlushTime == old(lastFlushTime) && currentDay == old(currentDay)
        invariant forall k ::
                    SortedMap.Lookup(dailyFiles, k)
                      == (if k in toRemove[..j] then None else SortedMap.Lookup(old(dailyFiles), k))
      {
        forall k
          ensures SortedMap.Lookup(SortedMap.Remove(dailyFiles, toRemove[j]), k)
                    == (if k in toRemove[..j + 1] then None else SortedMap.Lookup(old(dailyFiles), k))
        {
          SortedMap.RemoveLookup(dailyFiles, toRemove[j], k);
          assert toRemove[..j + 1] == toRemove[..j] + [toRemove[j]];
        }
        SortedMap.RemoveSorted(dailyFiles, toRemove[j]);
        dailyFiles := SortedMap.Remove(dailyFiles, toRemove[j]);
        j := j + 1;
      }
      assert toRemove[..j] == toRemove;
      forall k
        ensures SortedMap.Lookup(dailyFiles, k)
                  == (if Less(k, cutoff) then None else SortedMap.Lookup(old(dailyFiles), k))
      {
        if Less(k, cutoff) && k !in toRemove {
          assert SortedMap.Lookup(old(dailyFiles), k) == None;
        }
      }
    }

    /** `discover_existing_files`: index every listed file with the history name form under
        its date (nothing when the directory is missing). */
    method DiscoverExistingFiles(listing: Option<seq<string>>)
      requires Valid()
      modifies this
      ensures Valid()
      ensures config == old(config) && memoryBuffer == old(memoryBuffer) && disk == old(disk)
      ensures lastFlushTime == old(lastFlushTime) && currentDay == old(currentDay)
      ensures forall date ::
                SortedMap.Lookup(dailyFiles, date)
                  == (if listing.Some? && FileName(date) in listing.value
                      then Some(JoinPath(config.dataDirectory, FileName(date)))
                      else SortedMap.Lookup(old(dailyFiles), date))
      ensures dailyFiles == if listing.Some? then Discover(old(dailyFiles), config.dataDirectory, listing.value)
                            else old(dailyFiles)
    {
      if listing.None? {
        return;
      }
      var names := listing.value;
      var i := 0;
      while i < |names|
        invariant 0 <= i <= |names|
        invariant Valid()
        invariant config == old(config) && memoryBuffer == old(memoryBuffer) && disk == old(disk)
        invariant lastFlushTime == old(lastFlushTime) && currentDay == old(currentDay)
        invariant dailyFiles == Discover(old(dailyFiles), config.dataDirectory, names[..i])
      {
        var name := names[i];
        assert names[..i + 1][..i] == names[..i];
        match ParseFileName(name) {
          case Some(date) =>
            dailyFiles := SortedMap.Insert(dailyFiles, date, JoinPath(config.dataDirectory, name));
          case None =>
        }
        assert dailyFiles == Discover(old(dailyFiles), config.dataDirectory, names[..i + 1]);
        i := i + 1;
      }
      assert names[..i] == names;
      forall date
        ensures SortedMap.Lookup(dailyFiles, date)
                  == (if FileName(date) in names then Some(JoinPath(config.dataDirectory, FileName(date)))
                      else SortedMap.Lookup(old(dailyFiles), date))
      {
        DiscoverLookup(old(dailyFiles), config.dataDirectory, names, date);
      }
    }

    /** `load_recent_data`: append the points of the two latest dates, oldest date first,
        until the buffer is full. */
    method LoadRecentData()
      requires Valid()
      modifies this
      ensures Valid()
      ensures config == old(config) && dailyFiles == old(dailyFiles) && disk == old(disk)
      ensures lastFlushTime == old(lastFlushTime) && currentDay == old(currentDay)
      ensures memoryBuffer == Fill(old(memoryBuffer),
                                   LatestFilePoints(dailyFiles, disk, SortedMap.GreatestKeys(dailyFiles, 2)),
                                   config.maxPointsInMemory)
    {
      var dates := SortedMap.GreatestKeys(dailyFiles, 2);
      var i := 0;
      while i < |dates|
        invariant 0 <= i <= |dates|
        invariant config == old(config) && dailyFiles == old(dailyFiles) && disk == old(disk)
        invariant lastFlushTime == old(lastFlushTime) && currentDay == old(currentDay)
        invariant memoryBuffer == Fill(old(memoryBuffer), LatestFilePoints(dailyFiles, disk, dates[..i]), config.maxPointsInMemory)
        invariant Valid()
      {
        ghost var points := LatestFilePoints(dailyFiles, disk, dates[..i]);
        SortedMap.GreatestKeysPresent(dailyFiles, 2, i);
        match SortedMap.Lookup(dailyFiles, dates[i]) {
          case Some(path) =>
            var data := LoadDataFromFile(path);
            LatestFilePointsSnoc(dailyFiles, disk, dates, i, path);
            FillTwice(old(memoryBuffer), points, data, config.maxPointsInMemory);
            FillFrom(data);
          case None =>
            assert false;
        }
        i := i + 1;
      }
      assert dates[..i] == dates;
    }

    /** The inner loop of `load_recent_data`: push points until the buffer is full. */
    method FillFrom(data: seq<HistoryPoint>)
      modifies this
      ensures config == old(config) && dailyFiles == old(dailyFiles) && disk == old(disk)
      ensures lastFlushTime == old(lastFlushTime) && currentDay == old(currentDay)
      ensures memoryBuffer == Fill(old(memoryBuffer), data, config.maxPointsInMemory)
    {
      var i := 0;
      while i < |data|
        invariant 0 <= i <= |data|
        invariant config == old(config) && dailyFiles == old(dailyFiles) && disk == old(disk)
        invariant lastFlushTime == old(lastFlushTime) && currentDay == old(currentDay)
        invariant memoryBuffer == Fill(old(memoryBuffer), data[..i], config.maxPointsInMemory)
        invariant |memoryBuffer| < config.maxPointsInMemory || memoryBuffer == Fill(old(memoryBuffer), data, config.maxPointsInMemory)
      {
        if |memoryBuffer| >= config.maxPointsInMemory {
          break;
        }
        assert data[..i + 1] == data[..i] + [data[i]];
        memoryBuffer := memoryBuffer + [data[i]];
        i := i + 1;
      }
      if i == |data| {
        assert data[..i] == data;
      }
    }

    /** `load_data_from_file`: the lines of the file that parse, in order; none when the file
        is missing. */
    method LoadDataFromFile(path: string) returns (data: seq<HistoryPoint>)
      ensures data == Load(disk, path)
    {
      if path !in disk {
        return [];
      }
      var lines := disk[path];
      data := [];
      var i := 0;
      while i < |lines|
        invariant 0 <= i <= |lines|
        invariant data == FilterMap(lines[..i], Parsed)
      {
        FilterMapSnoc(lines[..i], lines[i], Parsed);
        assert lines[..i + 1] == lines[..i] + [lines[i]];
        if lines[i].Some? {
          data := data + [lines[i].value];
        }
        i := i + 1;
      }
      assert lines[..i] == lines;
    }
  }

  /** The stored form of a sample: taken at `nowS`, no processes attached yet. */
  function PointOf(m: CpuAnalyzer.CpuMetrics, nowS: nat): (p: HistoryPoint)
    ensures p.timestamp == nowS && p.totalUsage == m.totalUsage && p.topProcesses == []
  {
    HistoryPoint(nowS, m.totalUsage, m.perCoreUsage,
      (m.loadAverage.oneMinute, m.loadAverage.fiveMinutes, m.loadAverage.fifteenMinutes),
      m.frequencyMhz, m.temperature, [])
  }
}
