/** The bandwidth monitor: the interface list read from `ifconfig -a` (or, when that
    gives none, from `netstat -i -b`), a byte-counter snapshot per active interface, and
    the current, peak and average transfer rates each refresh derives from them. */
module BandwidthMonitor {
  import opened Common
  import opened Seqs
  import opened Strings

  datatype BandwidthStats = BandwidthStats(
    uploadBps: nat, downloadBps: nat,
    peakUploadBps: nat, peakDownloadBps: nat,
    averageUploadBps: nat, averageDownloadBps: nat)

  /** `BandwidthStats::default()`: every rate zero. */
  const ZERO_STATS := BandwidthStats(0, 0, 0, 0, 0, 0)

  datatype InterfaceStats = InterfaceStats(
    name: string, isActive: bool,
    bytesSent: nat, bytesReceived: nat,
    packetsSent: nat, packetsReceived: nat,
    errorsIn: nat, errorsOut: nat,
    dropsIn: nat, dropsOut: nat)

  /** The counters an interface had when it was last seen, and when (in seconds of a
      monotonic clock). */
  datatype InterfaceSnapshot = InterfaceSnapshot(bytesSent: nat, bytesReceived: nat, timestamp: real)

  /** No counter of the interface is set. */
  predicate Zeroed(i: InterfaceStats) {
    i.bytesSent == 0 && i.bytesReceived == 0 && i.packetsSent == 0 && i.packetsReceived == 0
    && i.errorsIn == 0 && i.errorsOut == 0 && i.dropsIn == 0 && i.dropsOut == 0
  }

  // ---------------------------------------------------------------------------
  // `ifconfig -a`

  /** A line that opens an interface block: it starts with neither a tab nor a space and
      holds a ':'. */
  predicate IsHeader(line: string) {
    !StartsWith(line, "\t") && !StartsWith(line, " ") && ':' in line
  }

  /** The interface a header line opens: named by the text before its first ':', active
      when the line mentions both "UP" and "RUNNING", and with no counter read. */
  function HeaderInterface(line: string): (r: InterfaceStats)
    ensures ':' !in r.name && |r.name| <= |line| && line[..|r.name|] == r.name
    ensures ':' in line ==> |r.name| < |line| && line[|r.name|] == ':'
    ensures r.isActive <==> Contains(line, "UP") && Contains(line, "RUNNING")
    ensures Zeroed(r)
  {
    var colon := IndexOfChar(line, ':');
    InterfaceStats(line[..colon], Contains(line, "UP") && Contains(line, "RUNNING"), 0, 0, 0, 0, 0, 0, 0, 0)
  }

  /** A header line names the interface written before its colon. */
  lemma HeaderNamesInterface(name: string, rest: string)
    requires name != [] && ':' !in name && name[0] != '\t' && name[0] != ' '
    ensures IsHeader(name + ":" + rest)
    ensures HeaderInterface(name + ":" + rest).name == name
  {
    var line := name + ":" + rest;
    assert line[|name|] == ':';
    assert line[..|name|] == name;
    IndexOfCharAt(name, ":" + rest, ':');
    assert line == name + (":" + rest);
  }

  /** The state of the ifconfig loop after `lines`: the interfaces already pushed and the
      one still being read. */
  function IfconfigScan(lines: seq<string>): (seq<InterfaceStats>, Option<InterfaceStats>)
    decreases |lines|
  {
    if lines == [] then ([], None)
    else
      var before := IfconfigScan(lines[..|lines| - 1]);
      var line := lines[|lines| - 1];
      if IsHeader(line) then (before.0 + OptionToSeq(before.1), Some(HeaderInterface(line)))
      else before
  }

  /** `parse_ifconfig`: the scan, with the interface still being read pushed at the end. */
  function IfconfigInterfaces(output: string): seq<InterfaceStats> {
    var scan := IfconfigScan(Lines(output));
    scan.0 + OptionToSeq(scan.1)
  }

  /** The scan has pushed, and is reading, one interface per header line so far. */
  lemma {:induction false} IfconfigScanHeaders(lines: seq<string>)
    ensures IfconfigScan(lines).0 + OptionToSeq(IfconfigScan(lines).1) == Map(Filter(lines, IsHeader), HeaderInterface)
    decreases |lines|
  {
    if lines != [] {
      var n := |lines| - 1;
      var front := lines[..n];
      IfconfigScanHeaders(front);
      assert lines == front + [lines[n]];
      FilterSnoc(front, lines[n], IsHeader);
      var before := IfconfigScan(front);
      if IsHeader(lines[n]) {
        MapAppend(Filter(front, IsHeader), [lines[n]], HeaderInterface);
        assert Map([lines[n]], HeaderInterface) == [HeaderInterface(lines[n])];
      } else {
        AppendEmpty(Filter(front, IsHeader));
      }
    }
  }

  /** Every header line gives one interface, in the order of the lines, and nothing else
      does: the lines between headers are read but not parsed, so no counter is set. */
  lemma IfconfigOnePerHeader(output: string)
    ensures IfconfigInterfaces(output) == Map(Filter(Lines(output), IsHeader), HeaderInterface)
    ensures forall i :: 0 <= i < |IfconfigInterfaces(output)| ==> Zeroed(IfconfigInterfaces(output)[i])
  {
    IfconfigScanHeaders(Lines(output));
  }

  // ---------------------------------------------------------------------------
  // `netstat -i -b`

  /** `parts[k].parse::<u64>().unwrap_or(0)`. */
  function Count(parts: seq<string>, k: nat): (r: nat)
    requires k < |parts|
    ensures r <= U64_MAX
    ensures ParseUnsigned(parts[k], U64_MAX).Some? ==> r == ParseUnsigned(parts[k], U64_MAX).value
  {
    ParseUnsigned(parts[k], U64_MAX).UnwrapOr(0)
  }

  /** One row of the interface table: a row of at least eleven fields names the interface
      in its first, and holds the input packets, errors and bytes in fields 4 to 6 and the
      output packets, errors and bytes in fields 7 to 9; an interface is active when it has
      moved a byte either way. */
  function NetstatInterface(line: string): (r: Option<InterfaceStats>)
    ensures r.Some? <==> |SplitWhitespace(line)| >= 11
    ensures r.Some? ==> r.value.name == SplitWhitespace(line)[0] && r.value.name != []
    ensures r.Some? ==> (r.value.isActive <==> r.value.bytesSent > 0 || r.value.bytesReceived > 0)
    ensures r.Some? ==> r.value.dropsIn == 0 && r.value.dropsOut == 0
  {
    var parts := SplitWhitespace(line);
    if |parts| >= 11 then
      var bytesIn := Count(parts, 6);
      var bytesOut := Count(parts, 9);
      Some(InterfaceStats(parts[0], bytesIn > 0 || bytesOut > 0, bytesOut, bytesIn,
                          Count(parts, 7), Count(parts, 4), Count(parts, 5), Count(parts, 8), 0, 0))
    else None
  }

  /** `parse_netstat_interfaces`: the rows after the header line. */
  function NetstatInterfaces(output: string): seq<InterfaceStats> {
    FilterMap(SkipFirst(Lines(output)), NetstatInterface)
  }

  /** The row netstat prints for an interface. */
  function NetstatRow(name: string, mtu: nat, network: string, address: string,
                      packetsIn: nat, errorsIn: nat, bytesIn: nat,
                      packetsOut: nat, errorsOut: nat, bytesOut: nat, collisions: nat): string {
    Join([name, NatToString(mtu), network, address,
          NatToString(packetsIn), NatToString(errorsIn), NatToString(bytesIn),
          NatToString(packetsOut), NatToString(errorsOut), NatToString(bytesOut), NatToString(collisions)], " ")
  }

  /** A row parses back to the counters it shows; the sent bytes are the output bytes. */
  lemma ParseNetstatRow(name: string, mtu: nat, network: string, address: string,
                        packetsIn: nat, errorsIn: nat, bytesIn: nat,
                        packetsOut: nat, errorsOut: nat, bytesOut: nat, collisions: nat)
    requires name != [] && NoSpace(name) && network != [] && NoSpace(network) && address != [] && NoSpace(address)
    requires packetsIn <= U64_MAX && errorsIn <= U64_MAX && bytesIn <= U64_MAX
    requires packetsOut <= U64_MAX && errorsOut <= U64_MAX && bytesOut <= U64_MAX
    ensures NetstatInterface(NetstatRow(name, mtu, network, address, packetsIn, errorsIn, bytesIn,
                                        packetsOut, errorsOut, bytesOut, collisions))
         == Some(InterfaceStats(name, bytesIn > 0 || bytesOut > 0, bytesOut, bytesIn,
                                packetsOut, packetsIn, errorsIn, errorsOut, 0, 0))
  {
    var words := [name, NatToString(mtu), network, address,
                  NatToString(packetsIn), NatToString(errorsIn), NatToString(bytesIn),
                  NatToString(packetsOut), NatToString(errorsOut), NatToString(bytesOut), NatToString(collisions)];
    NumbersAreWords(mtu, 0);
    NumbersAreWords(packetsIn, 0);
    NumbersAreWords(errorsIn, 0);
    NumbersAreWords(bytesIn, 0);
    NumbersAreWords(packetsOut, 0);
    NumbersAreWords(errorsOut, 0);
    NumbersAreWords(bytesOut, 0);
    NumbersAreWords(collisions, 0);
    SplitJoinedWords(words);
    ParseUnsignedOfNatToString(packetsIn, U64_MAX);
    ParseUnsignedOfNatToString(errorsIn, U64_MAX);
    ParseUnsignedOfNatToString(bytesIn, U64_MAX);
    ParseUnsignedOfNatToString(packetsOut, U64_MAX);
    ParseUnsignedOfNatToString(errorsOut, U64_MAX);
    ParseUnsignedOfNatToString(bytesOut, U64_MAX);
  }

  /** The first line is the column header and never gives an interface, whatever it holds. */
  lemma NetstatSkipsHeader(header: string, rows: string)
    requires '\n' !in header
    ensures NetstatInterfaces(header + "\n" + rows) == FilterMap(Lines(rows), NetstatInterface)
  {
    LinesCons(header, rows);
  }

  // ---------------------------------------------------------------------------
  // Interface list

  /** `get_interface_stats`: ifconfig's interfaces, or netstat's when ifconfig could not be
      run or gave none. */
  function InterfaceStatsOf(ifconfig: Option<string>, netstat: Option<string>): seq<InterfaceStats> {
    var first := if ifconfig.Some? then IfconfigInterfaces(ifconfig.value) else [];
    if first != [] then first
    else if netstat.Some? then NetstatInterfaces(netstat.value)
    else []
  }

  /** An ifconfig listing with a header line is used as it is, and netstat is not read. */
  lemma IfconfigPreferred(ifconfig: Option<string>, netstat: Option<string>)
    requires ifconfig.Some? && Filter(Lines(ifconfig.value), IsHeader) != []
    ensures InterfaceStatsOf(ifconfig, netstat) == Map(Filter(Lines(ifconfig.value), IsHeader), HeaderInterface)
    ensures forall i :: 0 <= i < |InterfaceStatsOf(ifconfig, netstat)| ==> Zeroed(InterfaceStatsOf(ifconfig, netstat)[i])
  {
    IfconfigOnePerHeader(ifconfig.value);
  }

  /** Without an ifconfig header line the list is netstat's rows. */
  lemma NetstatFallback(ifconfig: Option<string>, netstat: string)
    requires ifconfig.None? || Filter(Lines(ifconfig.value), IsHeader) == []
    ensures InterfaceStatsOf(ifconfig, Some(netstat)) == NetstatInterfaces(netstat)
  {
    if ifconfig.Some? {
      IfconfigOnePerHeader(ifconfig.value);
    }
  }

  // ---------------------------------------------------------------------------
  // Rates

  /** `now.duration_since(since).as_secs_f64()`: the seconds since `since`, zero when it
      is not earlier. */
  function Elapsed(now: real, since: real): (r: real)
    ensures r >= 0.0
    ensures r > 0.0 <==> since < now
    ensures since < now ==> since + r == now
  {
    if since < now then now - since else 0.0
  }

  /** `(bytes as f64 / seconds) as u64`: bytes per second, rounded down and saturating at
      the largest `u64`. */
  function Rate(bytes: nat, seconds: real): (r: nat)
    requires seconds > 0.0
    ensures r <= U64_MAX
    ensures r as real <= bytes as real / seconds
    ensures r < U64_MAX ==> bytes as real / seconds < (r + 1) as real
  {
    var perSecond := bytes as real / seconds;
    assert perSecond >= 0.0;
    var q := perSecond.Floor;
    if q > U64_MAX then U64_MAX else q
  }

  /** No traffic gives no rate, and over one second the rate is the byte count. */
  lemma RateOfBytes(bytes: nat, seconds: real)
    requires seconds > 0.0
    ensures bytes == 0 ==> Rate(bytes, seconds) == 0
    ensures seconds == 1.0 && bytes <= U64_MAX ==> Rate(bytes, seconds) == bytes
  {
  }

  /** The snapshot of `name`, if there is one. */
  function Lookup(snapshots: map<string, InterfaceSnapshot>, name: string): (r: Option<InterfaceSnapshot>)
    ensures r.Some? <==> name in snapshots
    ensures r.Some? ==> r.value == snapshots[name]
  {
    if name in snapshots then Some(snapshots[name]) else None
  }

  /** What one interface adds to the upload and download totals: nothing unless it is
      active, has a snapshot, and time has passed since that snapshot; then the bytes it
      moved since (zero when a counter went back) over the seconds elapsed. */
  function Contribution(snapshots: map<string, InterfaceSnapshot>, iface: InterfaceStats, now: real): (nat, nat) {
    if !iface.isActive then (0, 0)
    else
      match Lookup(snapshots, iface.name)
      case None => (0, 0)
      case Some(s) =>
        var seconds := Elapsed(now, s.timestamp);
        if seconds > 0.0 then
          (Rate(SaturatingSub(iface.bytesSent, s.bytesSent), seconds),
           Rate(SaturatingSub(iface.bytesReceived, s.bytesReceived), seconds))
        else (0, 0)
  }

  /** The snapshots and totals the refresh loop carries. */
  datatype Sweep = Sweep(snapshots: map<string, InterfaceSnapshot>, upload: nat, download: nat)

  function Snap(iface: InterfaceStats, now: real): InterfaceSnapshot {
    InterfaceSnapshot(iface.bytesSent, iface.bytesReceived, now)
  }

  /** One turn of the refresh loop: an inactive interface is skipped; an active one adds
      its contribution and has its snapshot replaced by its counters now. */
  function Step(acc: Sweep, iface: InterfaceStats, now: real): Sweep {
    if !iface.isActive then acc
    else
      var c := Contribution(acc.snapshots, iface, now);
      Sweep(acc.snapshots[iface.name := Snap(iface, now)], acc.upload + c.0, acc.download + c.1)
  }

  /** The refresh loop over `ifaces`, from zero totals. */
  function SweepAll(snapshots: map<string, InterfaceSnapshot>, ifaces: seq<InterfaceStats>, now: real): Sweep
    decreases |ifaces|
  {
    if ifaces == [] then Sweep(snapshots, 0, 0)
    else Step(SweepAll(snapshots, ifaces[..|ifaces| - 1], now), ifaces[|ifaces| - 1], now)
  }

  lemma SweepPrefix(snapshots: map<string, InterfaceSnapshot>, ifaces: seq<InterfaceStats>, k: nat, now: real)
    requires k < |ifaces|
    ensures SweepAll(snapshots, ifaces[..k + 1], now) == Step(SweepAll(snapshots, ifaces[..k], now), ifaces[k], now)
  {
    assert ifaces[..k + 1][..k] == ifaces[..k];
  }

  /** The names of the active interfaces. */
  function ActiveNames(ifaces: seq<InterfaceStats>): set<string> {
    set i | 0 <= i < |ifaces| && ifaces[i].isActive :: ifaces[i].name
  }

  lemma ActiveNamesSnoc(ifaces: seq<InterfaceStats>, n: nat)
    requires n < |ifaces|
    ensures ActiveNames(ifaces[..n + 1]) == ActiveNames(ifaces[..n]) + (if ifaces[n].isActive then {ifaces[n].name} else {})
  {
    var all := ifaces[..n + 1];
    var front := ifaces[..n];
    assert all[n] == ifaces[n];
    forall x | x in ActiveNames(front) ensures x in ActiveNames(all) {
      var i :| 0 <= i < n && front[i].isActive && front[i].name == x;
      assert all[i] == front[i];
    }
    forall x | x in ActiveNames(all) ensures x in ActiveNames(front) + (if ifaces[n].isActive then {ifaces[n].name} else {}) {
      var i :| 0 <= i < n + 1 && all[i].isActive && all[i].name == x;
      if i < n {
        assert front[i] == all[i];
      }
    }
  }

  /** After a refresh the snapshots cover the earlier names and every active interface. */
  lemma {:induction false} SweepKeys(snapshots: map<string, InterfaceSnapshot>, ifaces: seq<InterfaceStats>, now: real)
    ensures SweepAll(snapshots, ifaces, now).snapshots.Keys == snapshots.Keys + ActiveNames(ifaces)
    decreases |ifaces|
  {
    if ifaces == [] {
      assert ActiveNames(ifaces) == {};
    } else {
      var n := |ifaces| - 1;
      SweepKeys(snapshots, ifaces[..n], now);
      ActiveNamesSnoc(ifaces, n);
      assert ifaces[..n + 1] == ifaces;
    }
  }

  /** A name no active interface has keeps its snapshot, or its lack of one: an inactive
      interface is not even recorded. */
  lemma {:induction false} SweepUntouched(snapshots: map<string, InterfaceSnapshot>, ifaces: seq<InterfaceStats>,
                                          now: real, name: string)
    requires name !in ActiveNames(ifaces)
    ensures Lookup(SweepAll(snapshots, ifaces, now).snapshots, name) == Lookup(snapshots, name)
    decreases |ifaces|
  {
    if ifaces != [] {
      var n := |ifaces| - 1;
      ActiveNamesSnoc(ifaces, n);
      assert ifaces[..n + 1] == ifaces;
      SweepUntouched(snapshots, ifaces[..n], now, name);
    }
  }

  /** The last active interface of a name leaves its own counters, stamped now, as that
      name's snapshot. */
  lemma {:induction false} SweepRecordsLast(snapshots: map<string, InterfaceSnapshot>, ifaces: seq<InterfaceStats>,
                                            now: real, i: nat)
    requires i < |ifaces| && ifaces[i].isActive
    requires forall j :: i < j < |ifaces| && ifaces[j].isActive ==> ifaces[j].name != ifaces[i].name
    ensures Lookup(SweepAll(snapshots, ifaces, now).snapshots, ifaces[i].name) == Some(Snap(ifaces[i], now))
    decreases |ifaces|
  {
    var n := |ifaces| - 1;
    if i < n {
      var front := ifaces[..n];
      assert front[i] == ifaces[i];
      forall j | i < j < n && front[j].isActive ensures front[j].name != front[i].name {
        assert front[j] == ifaces[j];
      }
      SweepRecordsLast(snapshots, front, now, i);
    }
  }

  /** No two active interfaces share a name. */
  predicate DistinctActive(ifaces: seq<InterfaceStats>) {
    forall i, j :: 0 <= i < j < |ifaces| && ifaces[i].isActive && ifaces[j].isActive ==> ifaces[i].name != ifaces[j].name
  }

  function UploadOf(snapshots: map<string, InterfaceSnapshot>, now: real): InterfaceStats -> nat {
    iface => Contribution(snapshots, iface, now).0
  }

  function DownloadOf(snapshots: map<string, InterfaceSnapshot>, now: real): InterfaceStats -> nat {
    iface => Contribution(snapshots, iface, now).1
  }

  /** When no active name repeats, the totals are the sums of each interface's rate
      against the snapshots from before the refresh. */
  lemma {:induction false} SweepTotals(snapshots: map<string, InterfaceSnapshot>, ifaces: seq<InterfaceStats>, now: real)
    requires DistinctActive(ifaces)
    ensures SweepAll(snapshots, ifaces, now).upload == SumNat(ifaces, UploadOf(snapshots, now))
    ensures SweepAll(snapshots, ifaces, now).download == SumNat(ifaces, DownloadOf(snapshots, now))
    decreases |ifaces|
  {
    if ifaces != [] {
      var n := |ifaces| - 1;
      var front := ifaces[..n];
      var last := ifaces[n];
      assert DistinctActive(front) by {
        forall a, b | 0 <= a < b < n && front[a].isActive && front[b].isActive ensures front[a].name != front[b].name {
          assert front[a] == ifaces[a] && front[b] == ifaces[b];
        }
      }
      SweepTotals(snapshots, front, now);
      assert ifaces == front + [last];
      SumNatSnoc(front, last, UploadOf(snapshots, now));
      SumNatSnoc(front, last, DownloadOf(snapshots, now));
      if last.isActive {
        assert last.name !in ActiveNames(front) by {
          forall j | 0 <= j < n && front[j].isActive ensures front[j].name != last.name {
            assert front[j] == ifaces[j];
          }
        }
        SweepUntouched(snapshots, front, now, last.name);
      }
    }
  }

  /** A refresh against snapshots none of which is older than now reports no traffic:
      the first refresh of a monitor, and an interface listed twice, add nothing. */
  lemma {:induction false} FreshSweepIsQuiet(snapshots: map<string, InterfaceSnapshot>, ifaces: seq<InterfaceStats>, now: real)
    requires forall k :: k in snapshots ==> snapshots[k].timestamp >= now
    ensures SweepAll(snapshots, ifaces, now).upload == 0 && SweepAll(snapshots, ifaces, now).download == 0
    ensures forall k :: k in SweepAll(snapshots, ifaces, now).snapshots ==> SweepAll(snapshots, ifaces, now).snapshots[k].timestamp >= now
    decreases |ifaces|
  {
    if ifaces != [] {
      FreshSweepIsQuiet(snapshots, ifaces[..|ifaces| - 1], now);
    }
  }

  /** Interfaces without byte counters add nothing, whatever the snapshots. */
  lemma {:induction false} ZeroCountersAreQuiet(snapshots: map<string, InterfaceSnapshot>, ifaces: seq<InterfaceStats>, now: real)
    requires forall i :: 0 <= i < |ifaces| ==> ifaces[i].bytesSent == 0 && ifaces[i].bytesReceived == 0
    ensures SweepAll(snapshots, ifaces, now).upload == 0 && SweepAll(snapshots, ifaces, now).download == 0
    decreases |ifaces|
  {
    if ifaces != [] {
      var n := |ifaces| - 1;
      var front := ifaces[..n];
      assert forall i :: 0 <= i < n ==> front[i] == ifaces[i];
      ZeroCountersAreQuiet(snapshots, front, now);
      var acc := SweepAll(snapshots, front, now);
      match Lookup(acc.snapshots, ifaces[n].name)
      case None =>
      case Some(s) =>
        if Elapsed(now, s.timestamp) > 0.0 {
          RateOfBytes(0, Elapsed(now, s.timestamp));
        }
    }
  }

  /** Interfaces read from ifconfig carry no counters, so whenever ifconfig lists an
      interface the refresh reports no upload and no download. */
  lemma IfconfigRefreshIsQuiet(ifconfig: Option<string>, netstat: Option<string>,
                               snapshots: map<string, InterfaceSnapshot>, now: real)
    requires ifconfig.Some? && Filter(Lines(ifconfig.value), IsHeader) != []
    ensures SweepAll(snapshots, InterfaceStatsOf(ifconfig, netstat), now).upload == 0
    ensures SweepAll(snapshots, InterfaceStatsOf(ifconfig, netstat), now).download == 0
  {
    IfconfigPreferred(ifconfig, netstat);
    ZeroCountersAreQuiet(snapshots, InterfaceStatsOf(ifconfig, netstat), now);
  }

  // ---------------------------------------------------------------------------
  // Monitor state

  /** The peak after a sample: the larger of the two. */
  function Peak(prev: nat, sample: nat): (r: nat)
    ensures r >= prev && r >= sample
    ensures r == prev || r == sample
  {
    if sample > prev then sample else prev
  }

  /** The integer average of `count` samples summing to `total`. */
  function Average(total: nat, count: nat): nat
    requires count > 0
  {
    total / count
  }

  /** The monitor's fields as a value. */
  datatype State = State(
    snapshots: map<string, InterfaceSnapshot>,
    processBandwidth: map<nat, (nat, nat)>,
    stats: BandwidthStats,
    peakUpload: nat, peakDownload: nat,
    sampleCount: nat, totalUpload: nat, totalDownload: nat)

  /** `BandwidthMonitor::new()`. */
  const INITIAL := State(map[], map[], ZERO_STATS, 0, 0, 0, 0, 0)

  /** What every refresh keeps: the reported peaks are the recorded ones and bound the
      current rates, the averages are the totals over the samples, no total exceeds the
      samples times the peak, and no per-process figure is ever recorded. */
  predicate Consistent(st: State) {
    st.stats.peakUploadBps == st.peakUpload && st.stats.peakDownloadBps == st.peakDownload
    && st.stats.uploadBps <= st.peakUpload && st.stats.downloadBps <= st.peakDownload
    && (st.sampleCount == 0 ==> st.stats.averageUploadBps == 0 && st.stats.averageDownloadBps == 0)
    && (st.sampleCount > 0 ==>
          st.stats.averageUploadBps == Average(st.totalUpload, st.sampleCount)
          && st.stats.averageDownloadBps == Average(st.totalDownload, st.sampleCount))
    && st.totalUpload <= st.sampleCount * st.peakUpload
    && st.totalDownload <= st.sampleCount * st.peakDownload
    && st.processBandwidth == map[]
  }

  /** The bookkeeping after the sweep: the current rates are the totals, a reported peak
      is replaced only when exceeded, and one more sample enters the totals, over which
      the averages are taken. */
  function Recorded(st: State, upload: nat, download: nat): State {
    var count := st.sampleCount + 1;
    var totalUp := st.totalUpload + upload;
    var totalDown := st.totalDownload + download;
    var peakUpBps := if upload > st.peakUpload then upload else st.stats.peakUploadBps;
    var peakDownBps := if download > st.peakDownload then download else st.stats.peakDownloadBps;
    st.(stats := BandwidthStats(upload, download, peakUpBps, peakDownBps, Average(totalUp, count), Average(totalDown, count)),
        peakUpload := Peak(st.peakUpload, upload), peakDownload := Peak(st.peakDownload, download),
        sampleCount := count, totalUpload := totalUp, totalDownload := totalDown)
  }

  /** The state after `refresh` read `interfaces` at time `now`: the swept snapshots, and
      the sweep's totals recorded as one more sample. */
  function Refreshed(st: State, interfaces: seq<InterfaceStats>, now: real): State {
    var s := SweepAll(st.snapshots, interfaces, now);
    Recorded(st.(snapshots := s.snapshots), s.upload, s.download)
  }

  lemma InitialConsistent()
    ensures Consistent(INITIAL)
  {
  }

  /** One more sample within the new peak keeps the totals within samples times peak. */
  lemma SampleWithinPeak(total: nat, count: nat, peak: nat, sample: nat, newPeak: nat)
    requires total <= count * peak && peak <= newPeak && sample <= newPeak
    ensures total + sample <= (count + 1) * newPeak
  {
    assert count * peak <= count * newPeak by {
      assert count * newPeak - count * peak == count * (newPeak - peak);
    }
  }

  /** A refresh keeps the monitor consistent, never lowers a peak, counts one more sample
      and reports the rates it swept. */
  lemma RefreshKeepsConsistent(st: State, interfaces: seq<InterfaceStats>, now: real)
    requires Consistent(st)
    ensures Consistent(Refreshed(st, interfaces, now))
    ensures Refreshed(st, interfaces, now).peakUpload >= st.peakUpload
    ensures Refreshed(st, interfaces, now).peakDownload >= st.peakDownload
    ensures Refreshed(st, interfaces, now).sampleCount == st.sampleCount + 1
    ensures Refreshed(st, interfaces, now).stats.uploadBps == SweepAll(st.snapshots, interfaces, now).upload
    ensures Refreshed(st, interfaces, now).stats.downloadBps == SweepAll(st.snapshots, interfaces, now).download
  {
    var s := SweepAll(st.snapshots, interfaces, now);
    var r := Refreshed(st, interfaces, now);
    SampleWithinPeak(st.totalUpload, st.sampleCount, st.peakUpload, s.upload, r.peakUpload);
    SampleWithinPeak(st.totalDownload, st.sampleCount, st.peakDownload, s.download, r.peakDownload);
  }

  /** No average exceeds a bound every sample kept. */
  lemma DivWithin(total: nat, count: nat, peak: nat)
    requires count > 0 && total <= count * peak
    ensures Average(total, count) <= peak
  {
  }

  /** In a consistent monitor the averages never exceed the peaks. */
  lemma AverageWithinPeak(st: State)
    requires Consistent(st)
    ensures st.stats.averageUploadBps <= st.stats.peakUploadBps
    ensures st.stats.averageDownloadBps <= st.stats.peakDownloadBps
  {
    if st.sampleCount > 0 {
      DivWithin(st.totalUpload, st.sampleCount, st.peakUpload);
      DivWithin(st.totalDownload, st.sampleCount, st.peakDownload);
    }
  }

  /** `get_process_bandwidth` on a state: the recorded (upload, download) pair. */
  function ProcessBandwidth(st: State, pid: nat): (r: Option<(nat, nat)>)
    ensures r.Some? <==> pid in st.processBandwidth
    ensures r.Some? ==> r.value == st.processBandwidth[pid]
  {
    if pid in st.processBandwidth then Some(st.processBandwidth[pid]) else None
  }

  /** Reading nettop is a stub that records nothing, so no process ever has a figure. */
  lemma NoProcessBandwidth(st: State, pid: nat)
    requires Consistent(st)
    ensures ProcessBandwidth(st, pid) == None
  {
  }

  // ---------------------------------------------------------------------------
  // The monitor

  class Monitor {
    var interfaceSnapshots: map<string, InterfaceSnapshot>
    /** pid -> (upload, download); only the nettop reader would fill it. */
    var processBandwidth: map<nat, (nat, nat)>
    var currentStats: BandwidthStats
    var peakUpload: nat
    var peakDownload: nat
    var sampleCount: nat
    var totalUpload: nat
    var totalDownload: nat

    function Model(): State
      reads this
    {
      State(interfaceSnapshots, processBandwidth, currentStats, peakUpload, peakDownload,
            sampleCount, totalUpload, totalDownload)
    }

    predicate Valid()
      reads this
    {
      Consistent(Model())
    }

    constructor ()
      ensures Model() == INITIAL && Valid()
    {
      interfaceSnapshots := map[];
      processBandwidth := map[];
      currentStats := ZERO_STATS;
      peakUpload := 0;
      peakDownload := 0;
      sampleCount := 0;
      totalUpload := 0;
      totalDownload := 0;
    }

    /** `get_current_bandwidth`: refresh, then the stats. */
    method GetCurrentBandwidth(ifconfig: Option<string>, netstat: Option<string>, now: real) returns (stats: BandwidthStats)
      requires Valid()
      modifies this
      ensures Valid()
      ensures Model() == Refreshed(old(Model()), InterfaceStatsOf(ifconfig, netstat), now)
      ensures stats == currentStats
    {
      Refresh(ifconfig, netstat, now);
      stats := currentStats;
    }

    /** `get_interface_stats`. */
    method GetInterfaceStats(ifconfig: Option<string>, netstat: Option<string>) returns (interfaces: seq<InterfaceStats>)
      ensures interfaces == InterfaceStatsOf(ifconfig, netstat)
    {
      interfaces := [];
      if ifconfig.Some? {
        interfaces := ParseIfconfig(ifconfig.value);
      }
      if interfaces == [] {
        if netstat.Some? {
          interfaces := ParseNetstatInterfaces(netstat.value);
        }
      }
    }

    /** `get_process_bandwidth`. */
    function GetProcessBandwidth(pid: nat): (r: Option<(nat, nat)>)
      reads this
      ensures r == ProcessBandwidth(Model(), pid)
      ensures Valid() ==> r.None?
    {
      if pid in processBandwidth then Some(processBandwidth[pid]) else None
    }

    /** `refresh`. */
    method Refresh(ifconfig: Option<string>, netstat: Option<string>, now: real)
      requires Valid()
      modifies this
      ensures Valid()
      ensures Model() == Refreshed(old(Model()), InterfaceStatsOf(ifconfig, netstat), now)
    {
      var interfaces := GetInterfaceStats(ifconfig, netstat);
      var totalUploadBps: nat := 0;
      var totalDownloadBps: nat := 0;
      for k := 0 to |interfaces|
        invariant SweepAll(old(interfaceSnapshots), interfaces[..k], now)
               == Sweep(interfaceSnapshots, totalUploadBps, totalDownloadBps)
        invariant Model() == old(Model()).(snapshots := interfaceSnapshots)
      {
        SweepPrefix(old(interfaceSnapshots), interfaces, k, now);
        var iface := interfaces[k];
        if !iface.isActive {
          continue;
        }
        if iface.name in interfaceSnapshots {
          var snapshot := interfaceSnapshots[iface.name];
          var timeDiff := Elapsed(now, snapshot.timestamp);
          if timeDiff > 0.0 {
            var sentDiff := SaturatingSub(iface.bytesSent, snapshot.bytesSent);
            var receivedDiff := SaturatingSub(iface.bytesReceived, snapshot.bytesReceived);
            totalUploadBps := totalUploadBps + Rate(sentDiff, timeDiff);
            totalDownloadBps := totalDownloadBps + Rate(receivedDiff, timeDiff);
          }
        }
        interfaceSnapshots := interfaceSnapshots[iface.name := InterfaceSnapshot(iface.bytesSent, iface.bytesReceived, now)];
      }
      assert interfaces[..|interfaces|] == interfaces;
      RefreshKeepsConsistent(old(Model()), interfaces, now);
      RecordSample(totalUploadBps, totalDownloadBps);
    }

    /** The end of `refresh`: current rates, peaks, and the averages over one more sample. */
    method RecordSample(upload: nat, download: nat)
      modifies this
      ensures Model() == Recorded(old(Model()), upload, download)
    {
      currentStats := currentStats.(uploadBps := upload, downloadBps := download);
      if upload > peakUpload {
        peakUpload := upload;
        currentStats := currentStats.(peakUploadBps := upload);
      }
      if download > peakDownload {
        peakDownload := download;
        currentStats := currentStats.(peakDownloadBps := download);
      }
      sampleCount := sampleCount + 1;
      totalUpload := totalUpload + upload;
      totalDownload := totalDownload + download;
      if sampleCount > 0 {
        currentStats := currentStats.(averageUploadBps := Average(totalUpload, sampleCount),
                                      averageDownloadBps := Average(totalDownload, sampleCount));
      }
    }

    /** `parse_ifconfig`: a header line pushes the interface being read and starts the
        next one; other lines leave it as it is. */
    method ParseIfconfig(output: string) returns (interfaces: seq<InterfaceStats>)
      ensures interfaces == IfconfigInterfaces(output)
    {
      var lines := Lines(output);
      interfaces := [];
      var current: Option<InterfaceStats> := None;
      for i := 0 to |lines|
        invariant (interfaces, current) == IfconfigScan(lines[..i])
      {
        assert lines[..i + 1][..i] == lines[..i];
        var line := lines[i];
        if IsHeader(line) {
          var taken := current;
          current := None;
          if taken.Some? {
            interfaces := interfaces + [taken.value];
          } else {
            AppendEmpty(interfaces);
          }
          current := Some(HeaderInterface(line));
        }
      }
      assert lines[..|lines|] == lines;
      if current.Some? {
        interfaces := interfaces + [current.value];
      } else {
        AppendEmpty(interfaces);
      }
    }

    /** `parse_netstat_interfaces`: every row after the header with enough fields. */
    method ParseNetstatInterfaces(output: string) returns (interfaces: seq<InterfaceStats>)
      ensures interfaces == NetstatInterfaces(output)
    {
      var rows := SkipFirst(Lines(output));
      interfaces := [];
      for i := 0 to |rows|
        invariant interfaces == FilterMap(rows[..i], NetstatInterface)
      {
        FilterMapPrefix(rows, i, NetstatInterface);
        var parsed := NetstatInterface(rows[i]);
        if parsed.Some? {
          interfaces := interfaces + [parsed.value];
        } else {
          AppendEmpty(interfaces);
        }
      }
      assert rows[..|rows|] == rows;
    }
  }
}
