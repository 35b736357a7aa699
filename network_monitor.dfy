/** The network monitor: the socket list and the bandwidth figures gathered into one set
    of metrics, which is handed out again unchanged while it is younger than one and a
    half seconds. */
module NetworkMonitor {
  import opened Common
  import opened Seqs
  import opened ConnectionTracker
  import BW = BandwidthMonitor

  datatype NetworkMetrics = NetworkMetrics(
    connections: seq<NetworkConnection>,
    bandwidth: BW.BandwidthStats,
    totalBytesSent: nat, totalBytesReceived: nat,
    packetsSent: nat, packetsReceived: nat,
    activeInterfaces: seq<string>)

  /** The outputs of the commands a read of the metrics runs: `netstat -anv`, `lsof -i`,
      `ifconfig -a` and `netstat -i -b`; `None` when a command could not be run. */
  datatype Readings = Readings(
    netstat: Option<string>, lsof: Option<string>,
    ifconfig: Option<string>, netstatInterfaces: Option<string>)

  /** How long the metrics are reused, in seconds. */
  const CACHE_SECONDS: real := 1.5

  /** The cached metrics, if there are some and they were taken less than
      `CACHE_SECONDS` ago (a clock that reads earlier than the last update counts as no
      time passed). */
  function CachedFor(cached: Option<NetworkMetrics>, lastUpdate: real, now: real): (r: Option<NetworkMetrics>)
    ensures r.Some? <==> cached.Some? && now < lastUpdate + CACHE_SECONDS
    ensures r.Some? ==> r == cached
  {
    if cached.Some? && BW.Elapsed(now, lastUpdate) < CACHE_SECONDS then cached else None
  }

  // ---------------------------------------------------------------------------
  // Totals

  datatype Totals = Totals(bytesSent: nat, bytesReceived: nat, packetsSent: nat, packetsReceived: nat)

  function BytesSent(i: BW.InterfaceStats): nat { i.bytesSent }
  function BytesReceived(i: BW.InterfaceStats): nat { i.bytesReceived }
  function PacketsSent(i: BW.InterfaceStats): nat { i.packetsSent }
  function PacketsReceived(i: BW.InterfaceStats): nat { i.packetsReceived }

  /** The four counters summed over every interface, active or not. */
  function TotalsOf(interfaces: seq<BW.InterfaceStats>): Totals {
    Totals(SumNat(interfaces, BytesSent), SumNat(interfaces, BytesReceived),
           SumNat(interfaces, PacketsSent), SumNat(interfaces, PacketsReceived))
  }

  /** The totals with one more interface's counters added. */
  function Plus(t: Totals, i: BW.InterfaceStats): Totals {
    Totals(t.bytesSent + i.bytesSent, t.bytesReceived + i.bytesReceived,
           t.packetsSent + i.packetsSent, t.packetsReceived + i.packetsReceived)
  }

  lemma TotalsPrefix(interfaces: seq<BW.InterfaceStats>, k: nat)
    requires k < |interfaces|
    ensures TotalsOf(interfaces[..k + 1]) == Plus(TotalsOf(interfaces[..k]), interfaces[k])
  {
    assert interfaces[..k + 1] == interfaces[..k] + [interfaces[k]];
    SumNatSnoc(interfaces[..k], interfaces[k], BytesSent);
    SumNatSnoc(interfaces[..k], interfaces[k], BytesReceived);
    SumNatSnoc(interfaces[..k], interfaces[k], PacketsSent);
    SumNatSnoc(interfaces[..k], interfaces[k], PacketsReceived);
  }

  /** Every interface's counters, inactive ones included, are part of the totals. */
  lemma TotalsCountEvery(interfaces: seq<BW.InterfaceStats>, j: nat)
    requires j < |interfaces|
    ensures interfaces[j].bytesSent <= TotalsOf(interfaces).bytesSent
    ensures interfaces[j].bytesReceived <= TotalsOf(interfaces).bytesReceived
    ensures interfaces[j].packetsSent <= TotalsOf(interfaces).packetsSent
    ensures interfaces[j].packetsReceived <= TotalsOf(interfaces).packetsReceived
  {
    SumNatRemove(interfaces, j, BytesSent);
    SumNatRemove(interfaces, j, BytesReceived);
    SumNatRemove(interfaces, j, PacketsSent);
    SumNatRemove(interfaces, j, PacketsReceived);
  }

  lemma {:induction false} TotalsOfZeroed(interfaces: seq<BW.InterfaceStats>)
    requires forall i :: 0 <= i < |interfaces| ==> BW.Zeroed(interfaces[i])
    ensures TotalsOf(interfaces) == Totals(0, 0, 0, 0)
    decreases |interfaces|
  {
    if interfaces != [] {
      assert forall i :: 0 <= i < |interfaces| - 1 ==> interfaces[1..][i] == interfaces[i + 1];
      TotalsOfZeroed(interfaces[1..]);
    }
  }

  /** Whenever ifconfig lists an interface, its counters are not read, so every total in
      the metrics is zero. */
  lemma IfconfigTotalsAreZero(ifconfig: Option<string>, netstat: Option<string>)
    requires ifconfig.Some? && Filter(Strings.Lines(ifconfig.value), BW.IsHeader) != []
    ensures TotalsOf(BW.InterfaceStatsOf(ifconfig, netstat)) == Totals(0, 0, 0, 0)
  {
    BW.IfconfigPreferred(ifconfig, netstat);
    TotalsOfZeroed(BW.InterfaceStatsOf(ifconfig, netstat));
  }

  // ---------------------------------------------------------------------------
  // Active interfaces

  predicate IsActive(i: BW.InterfaceStats) { i.isActive }
  function NameOf(i: BW.InterfaceStats): string { i.name }

  /** The names of the active interfaces, in their order: a name is listed exactly when
      some active interface has it. */
  function ActiveInterfaces(interfaces: seq<BW.InterfaceStats>): (r: seq<string>)
    ensures |r| <= |interfaces|
    ensures forall i :: 0 <= i < |interfaces| && interfaces[i].isActive ==> interfaces[i].name in r
    ensures forall k :: 0 <= k < |r| ==> exists i :: 0 <= i < |interfaces| && interfaces[i].isActive && interfaces[i].name == r[k]
  {
    var active := Filter(interfaces, IsActive);
    forall i | 0 <= i < |interfaces| && interfaces[i].isActive
      ensures interfaces[i].name in Map(active, NameOf)
    {
      FilterMember(interfaces, IsActive, interfaces[i]);
      var j :| 0 <= j < |active| && active[j] == interfaces[i];
      assert Map(active, NameOf)[j] == interfaces[i].name;
    }
    forall k | 0 <= k < |active|
      ensures exists i :: 0 <= i < |interfaces| && interfaces[i].isActive && interfaces[i].name == active[k].name
    {
      var i :| 0 <= i < |interfaces| && interfaces[i] == active[k];
    }
    Map(active, NameOf)
  }

  // ---------------------------------------------------------------------------
  // The monitor

  class Monitor {
    const tracker: Tracker
    const bandwidth: BW.Monitor
    var lastUpdate: real
    var cachedMetrics: Option<NetworkMetrics>

    predicate Valid()
      reads this, bandwidth
    {
      bandwidth.Valid()
    }

    constructor (now: real)
      ensures Valid() && fresh(tracker) && fresh(bandwidth)
      ensures tracker.connections == [] && tracker.processMap == map[]
      ensures bandwidth.Model() == BW.INITIAL
      ensures lastUpdate == now && cachedMetrics == None
    {
      tracker := new Tracker();
      bandwidth := new BW.Monitor();
      lastUpdate := now;
      cachedMetrics := None;
    }

    /** `get_metrics`: the cached metrics while they are fresh; otherwise the sockets, a
        bandwidth refresh, the interface list read once more, their totals and active
        names, all cached as of now. */
    method GetMetrics(readings: Readings, now: real) returns (metrics: NetworkMetrics)
      requires Valid()
      modifies this, tracker, bandwidth
      ensures Valid()
      ensures CachedFor(old(cachedMetrics), old(lastUpdate), now).Some? ==>
                metrics == old(cachedMetrics).value
                && cachedMetrics == old(cachedMetrics) && lastUpdate == old(lastUpdate)
                && unchanged(tracker) && unchanged(bandwidth)
      ensures CachedFor(old(cachedMetrics), old(lastUpdate), now).None? ==>
                var interfaces := BW.InterfaceStatsOf(readings.ifconfig, readings.netstatInterfaces);
                var totals := TotalsOf(interfaces);
                (tracker.connections, tracker.processMap) == Snapshot(readings.netstat, readings.lsof)
                && bandwidth.Model() == BW.Refreshed(old(bandwidth.Model()), interfaces, now)
                && metrics == NetworkMetrics(tracker.connections, bandwidth.currentStats,
                                             totals.bytesSent, totals.bytesReceived,
                                             totals.packetsSent, totals.packetsReceived,
                                             ActiveInterfaces(interfaces))
                && cachedMetrics == Some(metrics) && lastUpdate == now
    {
      if cachedMetrics.Some? {
        if BW.Elapsed(now, lastUpdate) < CACHE_SECONDS {
          return cachedMetrics.value;
        }
      }
      var connections := tracker.GetConnections(readings.netstat, readings.lsof);
      var stats := bandwidth.GetCurrentBandwidth(readings.ifconfig, readings.netstatInterfaces, now);
      var interfaceStats := bandwidth.GetInterfaceStats(readings.ifconfig, readings.netstatInterfaces);
      var totals := CalculateTotals(interfaceStats);
      var active := ActiveInterfaces(interfaceStats);
      metrics := NetworkMetrics(connections, stats, totals.bytesSent, totals.bytesReceived,
                                totals.packetsSent, totals.packetsReceived, active);
      cachedMetrics := Some(metrics);
      lastUpdate := now;
    }

    /** `get_connections_for_process`. */
    method GetConnectionsForProcess(pid: nat, readings: Readings) returns (r: seq<NetworkConnection>)
      modifies tracker
      ensures (tracker.connections, tracker.processMap) == Snapshot(readings.netstat, readings.lsof)
      ensures r == OwnedBy(tracker.connections, pid)
    {
      r := tracker.GetConnectionsForPid(pid, readings.netstat, readings.lsof);
    }

    /** `get_bandwidth_for_process`: nothing, since no per-process figure is ever
        recorded. */
    method GetBandwidthForProcess(pid: nat) returns (r: Option<(nat, nat)>)
      requires Valid()
      ensures r == BW.ProcessBandwidth(bandwidth.Model(), pid)
      ensures r == None
    {
      r := bandwidth.GetProcessBandwidth(pid);
    }

    /** `calculate_totals`. */
    method CalculateTotals(interfaces: seq<BW.InterfaceStats>) returns (totals: Totals)
      ensures totals == TotalsOf(interfaces)
    {
      var totalSent: nat, totalReceived: nat, packetsSent: nat, packetsReceived: nat := 0, 0, 0, 0;
      for k := 0 to |interfaces|
        invariant Totals(totalSent, totalReceived, packetsSent, packetsReceived) == TotalsOf(interfaces[..k])
      {
        TotalsPrefix(interfaces, k);
        totalSent := totalSent + interfaces[k].bytesSent;
        totalReceived := totalReceived + interfaces[k].bytesReceived;
        packetsSent := packetsSent + interfaces[k].packetsSent;
        packetsReceived := packetsReceived + interfaces[k].packetsReceived;
      }
      assert interfaces[..|interfaces|] == interfaces;
      totals := Totals(totalSent, totalReceived, packetsSent, packetsReceived);
    }

    /** `refresh`: the cache is dropped, so the next read gathers the metrics anew, and
        both sources are refreshed. */
    method Refresh(readings: Readings, now: real)
      requires Valid()
      modifies this, tracker, bandwidth
      ensures Valid()
      ensures cachedMetrics == None && lastUpdate == old(lastUpdate)
      ensures CachedFor(cachedMetrics, lastUpdate, now) == None
      ensures (tracker.connections, tracker.processMap) == Snapshot(readings.netstat, readings.lsof)
      ensures bandwidth.Model()
           == BW.Refreshed(old(bandwidth.Model()), BW.InterfaceStatsOf(readings.ifconfig, readings.netstatInterfaces), now)
    {
      cachedMetrics := None;
      tracker.Refresh(readings.netstat, readings.lsof);
      bandwidth.Refresh(readings.ifconfig, readings.netstatInterfaces, now);
    }
  }
}
