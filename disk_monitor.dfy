/** The disk monitor (monitors/disk/src/disk_monitor.rs): the mounted volumes with their
    usage and kind, the per-mount history of used bytes a refresh keeps, the growth rate
    read from that history, and the human-readable byte sizes. The list of volumes and
    their figures are what the operating system reports at a refresh. */
module DiskMonitor {
  import opened Common
  import opened Seqs
  import opened Strings
  import opened SampleHistory

  /** `DiskType`. */
  datatype DiskType = Hdd | Ssd | Network | Removable | Unknown

  function TypeRank(t: DiskType): nat {
    match t
    case Hdd => 0
    case Ssd => 1
    case Network => 2
    case Removable => 3
    case Unknown => 4
  }

  /** `DiskType::as_str`. */
  function TypeName(t: DiskType): (name: string)
    ensures name == ["HDD", "SSD", "Network", "Removable", "Unknown"][TypeRank(t)]
  {
    match t
    case Hdd => "HDD"
    case Ssd => "SSD"
    case Network => "Network"
    case Removable => "Removable"
    case Unknown => "Unknown"
  }

  /** Distinct kinds have distinct names. */
  lemma TypeNameInjective(a: DiskType, b: DiskType)
    requires TypeName(a) == TypeName(b)
    ensures a == b
  {
  }

  // ---------------------------------------------------------------------------
  // Kind of a volume

  predicate IsNetworkFileSystem(fileSystem: string) {
    Contains(fileSystem, "nfs") || Contains(fileSystem, "smb") || Contains(fileSystem, "afp")
  }

  predicate IsRemovableMount(mountPoint: string) {
    Contains(mountPoint, "/Volumes/") && !Contains(mountPoint, "Macintosh")
  }

  predicate IsSystemMount(mountPoint: string) {
    mountPoint == "/" || StartsWith(mountPoint, "/System")
  }

  /** `determine_disk_type`: a network file system first, then a removable mount point,
      then a system volume; never a hard disk. */
  function DetermineDiskType(mountPoint: string, fileSystem: string): (t: DiskType)
    ensures t == Network <==> IsNetworkFileSystem(fileSystem)
    ensures t == Removable <==> !IsNetworkFileSystem(fileSystem) && IsRemovableMount(mountPoint)
    ensures t == Ssd <==> !IsNetworkFileSystem(fileSystem) && !IsRemovableMount(mountPoint) && IsSystemMount(mountPoint)
    ensures t == Unknown <==> !IsNetworkFileSystem(fileSystem) && !IsRemovableMount(mountPoint) && !IsSystemMount(mountPoint)
    ensures t != Hdd
  {
    if IsNetworkFileSystem(fileSystem) then Network
    else if IsRemovableMount(mountPoint) then Removable
    else if IsSystemMount(mountPoint) then Ssd
    else Unknown
  }

  /** The root volume is a solid-state disk unless its file system is a network one. */
  lemma RootIsSsd(fileSystem: string)
    requires !IsNetworkFileSystem(fileSystem)
    ensures DetermineDiskType("/", fileSystem) == Ssd
  {
    ContainsShorter("/", "/Volumes/");
  }

  /** The data volume of a macOS system, mounted at "/System/Volumes/Data" with APFS,
      matches "/Volumes/" before the "/System" test is reached, so it counts as removable. */
  lemma SystemDataVolumeIsRemovable()
    ensures DetermineDiskType("/System/Volumes/Data", "apfs") == Removable
  {
    DataVolumeMount();
    ApfsIsLocal();
  }

  lemma DataVolumeMount()
    ensures IsRemovableMount("/System/Volumes/Data")
  {
    var mount := "/System/Volumes/Data";
    var tail := "/Volumes/Data";
    assert tail[..9] == "/Volumes/";
    assert mount == "/System" + tail;
    assert mount[7..] == tail;
    ContainsAt(mount, 7, "/Volumes/");
    ContainsHead(mount, "Macintosh");
  }

  lemma ApfsIsLocal()
    ensures !IsNetworkFileSystem("apfs")
  {
    ContainsHead("apfs", "nfs");
    assert "apfs"[1..] == "pfs";
    assert !StartsWith("apfs", "smb");
    ContainsSameLength("pfs", "smb");
    assert !StartsWith("apfs", "afp");
    ContainsSameLength("pfs", "afp");
  }

  // ---------------------------------------------------------------------------
  // Used space

  const U64_RANGE: nat := 0x1_0000_0000_0000_0000

  /** `total - available` on `u64` as written, in a release build, where the subtraction
      wraps around. */
  function UsedAsWritten(total: nat, available: nat): (used: nat) {
    (total - available) % U64_RANGE
  }

  /** A volume reporting more available bytes than its size gets a used figure larger than
      the volume itself. */
  lemma UsedAsWrittenExceedsTotal(total: nat, available: nat)
    requires total < available <= U64_MAX
    ensures UsedAsWritten(total, available) == U64_RANGE - (available - total)
    ensures UsedAsWritten(total, available) > total
  {
  }

  /** An empty pseudo volume reporting one available byte is shown as using 2^64 - 1 bytes. */
  lemma UsedAsWrittenOfEmptyVolume()
    ensures UsedAsWritten(0, 1) == U64_MAX
  {
  }

  /** The used bytes, saturating at zero. */
  function Used(total: nat, available: nat): (used: nat)
    ensures used <= total
    ensures available <= total ==> used + available == total
    ensures available >= total ==> used == 0
  {
    if available <= total then total - available else 0
  }

  /** Wherever the volume's figures are consistent, the saturating subtraction and the
      written one agree. */
  lemma UsedAgreesWhenConsistent(total: nat, available: nat)
    requires available <= total <= U64_MAX
    ensures Used(total, available) == UsedAsWritten(total, available)
  {
  }

  // ---------------------------------------------------------------------------
  // Volumes

  /** What the operating system reports about one volume at a refresh. */
  datatype DiskReading = DiskReading(mountPoint: string, name: string, fileSystem: string,
                                     totalBytes: nat, availableBytes: nat, isRemovable: bool)

  /** `DiskInfo`. */
  datatype DiskInfo = DiskInfo(mountPoint: string, name: string, fileSystem: string,
                               totalBytes: nat, availableBytes: nat, usedBytes: nat,
                               usagePercent: real, isRemovable: bool, diskType: DiskType)

  /** The usage percentage of `used` bytes out of `total`, 0 for an empty volume. */
  function UsagePercent(used: nat, total: nat): real {
    if total > 0 then used as real / total as real * 100.0 else 0.0
  }

  /** The `DiskInfo` `get_all_disks` builds from one reading. */
  function InfoOf(d: DiskReading): DiskInfo {
    var used := Used(d.totalBytes, d.availableBytes);
    DiskInfo(d.mountPoint, d.name, d.fileSystem, d.totalBytes, d.availableBytes, used,
             UsagePercent(used, d.totalBytes), d.isRemovable,
             DetermineDiskType(d.mountPoint, d.fileSystem))
  }

  /** A volume's usage lies between 0 and 100 percent, is 0 for an empty volume and 100
      for a full one, and its used and available bytes make up its size. */
  lemma InfoUsage(d: DiskReading)
    ensures var info := InfoOf(d);
            0.0 <= info.usagePercent <= 100.0
            && (d.totalBytes == 0 ==> info.usagePercent == 0.0)
            && (0 == d.availableBytes < d.totalBytes ==> info.usagePercent == 100.0)
            && (d.availableBytes <= d.totalBytes ==> info.usedBytes + info.availableBytes == info.totalBytes)
  {
    UsageWithin(Used(d.totalBytes, d.availableBytes), d.totalBytes);
  }

  lemma UsageWithin(used: nat, total: nat)
    requires used <= total
    ensures 0.0 <= UsagePercent(used, total) <= 100.0
    ensures 0 < total == used ==> UsagePercent(used, total) == 100.0
  {
    if total > 0 {
      var u, t := used as real, total as real;
      var ratio := u / t;
      assert ratio * t == u;
      assert ratio <= 1.0 by {
        if ratio > 1.0 {
          PositiveProduct(ratio - 1.0, t);
        }
      }
    }
  }

  /** With the written subtraction, a volume that reports more available bytes than its
      size is shown as more than 100 percent used. */
  lemma UsageAsWrittenExceedsHundred(total: nat, available: nat)
    requires 0 < total < available <= U64_MAX
    ensures UsagePercent(UsedAsWritten(total, available), total) > 100.0
  {
    UsedAsWrittenExceedsTotal(total, available);
    RatioAboveOne(UsedAsWritten(total, available) as real, total as real);
  }

  lemma RatioAboveOne(u: real, t: real)
    requires 0.0 < t < u
    ensures u / t * 100.0 > 100.0
  {
    assert (u / t - 1.0) * t == u - t;
  }

  /** `Iterator::find` on the mount point: the first volume mounted at `mountPoint`. */
  function FindByMount(infos: seq<DiskInfo>, mountPoint: string): (r: Option<DiskInfo>)
    ensures r.None? <==> forall i :: 0 <= i < |infos| ==> infos[i].mountPoint != mountPoint
    ensures r.Some? ==> exists i :: 0 <= i < |infos| && infos[i] == r.value
                          && r.value.mountPoint == mountPoint
                          && forall j :: 0 <= j < i ==> infos[j].mountPoint != mountPoint
    decreases |infos|
  {
    if infos == [] then None
    else if infos[0].mountPoint == mountPoint then Some(infos[0])
    else
      var r := FindByMount(infos[1..], mountPoint);
      assert forall i :: 1 <= i < |infos| ==> infos[i] == infos[1..][i - 1];
      r
  }

  /** Whether a volume is at least `threshold` percent used. */
  predicate AtLeast(threshold: real, d: DiskInfo) {
    d.usagePercent >= threshold
  }

  // ---------------------------------------------------------------------------
  // History

  /** A mount point keeps at most this many samples: one minute at one refresh a second. */
  const HistoryCap: nat := 60

  /** The (mount point, used bytes) entries a refresh records, in the volumes' order. */
  function Samples(disks: seq<DiskReading>): (entries: seq<(string, nat)>)
    ensures |entries| == |disks|
  {
    if disks == [] then []
    else
      var last := disks[|disks| - 1];
      Samples(disks[..|disks| - 1]) + [(last.mountPoint, Used(last.totalBytes, last.availableBytes))]
  }

  lemma {:induction false} SamplesAt(disks: seq<DiskReading>, i: nat)
    requires i < |disks|
    ensures Samples(disks)[i] == (disks[i].mountPoint, Used(disks[i].totalBytes, disks[i].availableBytes))
    decreases |disks|
  {
    var n := |disks| - 1;
    if i < n {
      SamplesAt(disks[..n], i);
    }
  }

  /** The histories after a refresh: each volume's used bytes pushed onto its mount
      point's history. Histories of volumes no longer listed are kept. */
  function RecordedHistory(history: map<string, seq<nat>>, disks: seq<DiskReading>): map<string, seq<nat>> {
    RecordAll(history, Samples(disks), HistoryCap)
  }

  /** A refresh keeps every earlier history, adds one for each listed mount point, and
      keeps each of them between 1 and 60 samples long. */
  lemma RecordedHistoryKeys(history: map<string, seq<nat>>, disks: seq<DiskReading>)
    requires Bounded(history, HistoryCap)
    ensures RecordedHistory(history, disks).Keys
              == history.Keys + set i | 0 <= i < |disks| :: disks[i].mountPoint
    ensures Bounded(RecordedHistory(history, disks), HistoryCap)
  {
    var entries := Samples(disks);
    RecordAllKeys(history, entries, HistoryCap);
    RecordAllBounded(history, entries, HistoryCap);
    forall i | 0 <= i < |disks| ensures entries[i].0 == disks[i].mountPoint {
      SamplesAt(disks, i);
    }
    assert KeysOf(entries) == set i | 0 <= i < |disks| :: disks[i].mountPoint;
  }

  /** No two volumes share a mount point. */
  predicate DistinctMounts(disks: seq<DiskReading>) {
    forall i, j :: 0 <= i < j < |disks| ==> disks[i].mountPoint != disks[j].mountPoint
  }

  /** With each mount point listed once, each listed volume's history is its earlier one,
      or an empty one, with its used bytes pushed. */
  lemma RecordedHistoryPushes(history: map<string, seq<nat>>, disks: seq<DiskReading>, i: nat)
    requires DistinctMounts(disks) && i < |disks|
    ensures Prior(RecordedHistory(history, disks), disks[i].mountPoint)
              == Pushed(Prior(history, disks[i].mountPoint), Used(disks[i].totalBytes, disks[i].availableBytes), HistoryCap)
  {
    var entries := Samples(disks);
    forall a, b | 0 <= a < b < |entries| ensures entries[a].0 != entries[b].0 {
      SamplesAt(disks, a);
      SamplesAt(disks, b);
    }
    SamplesAt(disks, i);
    RecordAllDistinct(history, entries, HistoryCap, i);
  }

  /** `get_disk_growth_rate`: MB per minute between the oldest and the newest sample, over
      as many seconds as there are samples; none for an unknown mount point or a single
      sample. */
  function Growth(history: map<string, seq<nat>>, mountPoint: string): (r: Option<real>)
    ensures r.None? <==> mountPoint !in history || |history[mountPoint]| < 2
    ensures r.Some? ==> var h := history[mountPoint];
                        r.value * (1048576 * |h|) as real == 60.0 * (h[|h| - 1] as real - h[0] as real)
                        && (r.value > 0.0 <==> h[|h| - 1] > h[0])
                        && (r.value == 0.0 <==> h[|h| - 1] == h[0])
  {
    if mountPoint in history && |history[mountPoint]| >= 2 then
      var h := history[mountPoint];
      var growth := h[|h| - 1] as real - h[0] as real;
      var perSecond := growth / 1024.0 / 1024.0 / |h| as real;
      GrowthScaled(growth, |h|);
      Some(perSecond * 60.0)
    else None
  }

  lemma GrowthScaled(growth: real, n: nat)
    requires n >= 2
    ensures var r := growth / 1024.0 / 1024.0 / n as real * 60.0;
            r * (1048576 * n) as real == 60.0 * growth
            && (r > 0.0 <==> growth > 0.0) && (r == 0.0 <==> growth == 0.0)
  {
    var d := (1048576 * n) as real;
    assert growth / 1024.0 / 1024.0 / n as real == growth / d;
  }

  /** A volume seen for the first time has a single sample after the refresh, so no
      growth rate yet. */
  lemma FirstSampleHasNoGrowth(history: map<string, seq<nat>>, disks: seq<DiskReading>, i: nat)
    requires DistinctMounts(disks) && i < |disks| && disks[i].mountPoint !in history
    ensures Growth(RecordedHistory(history, disks), disks[i].mountPoint).None?
  {
    RecordedHistoryPushes(history, disks, i);
    RecordedHistoryKeys'(history, disks, i);
  }

  lemma RecordedHistoryKeys'(history: map<string, seq<nat>>, disks: seq<DiskReading>, i: nat)
    requires i < |disks|
    ensures disks[i].mountPoint in RecordedHistory(history, disks)
  {
    var entries := Samples(disks);
    RecordAllKeys(history, entries, HistoryCap);
    SamplesAt(disks, i);
    assert entries[i].0 in KeysOf(entries);
  }

  // ---------------------------------------------------------------------------
  // Byte sizes

  const Units: seq<string> := ["B", "KB", "MB", "GB", "TB", "PB"]

  function Pow1024(n: nat): (p: nat)
    ensures p >= 1
  {
    if n == 0 then 1 else 1024 * Pow1024(n - 1)
  }

  lemma {:induction false} Pow1024Monotone(m: nat, n: nat)
    requires m <= n
    ensures Pow1024(m) <= Pow1024(n)
    decreases n
  {
    if m < n {
      Pow1024Monotone(m, n - 1);
    }
  }

  /** The unit `format_bytes` picks: the largest power of 1024 up to the size, capped at
      petabytes. */
  function UnitIndex(bytes: nat): (u: nat)
    ensures u < |Units|
    ensures u > 0 ==> Pow1024(u) <= bytes
    ensures u < |Units| - 1 ==> bytes < Pow1024(u + 1)
  {
    UnitFrom(bytes, 0)
  }

  function UnitFrom(bytes: nat, u: nat): (v: nat)
    requires u < |Units| && (u > 0 ==> Pow1024(u) <= bytes)
    ensures u <= v < |Units|
    ensures v > 0 ==> Pow1024(v) <= bytes
    ensures v < |Units| - 1 ==> bytes < Pow1024(v + 1)
    decreases |Units| - u
  {
    if u < |Units| - 1 && Pow1024(u + 1) <= bytes then UnitFrom(bytes, u + 1) else u
  }

  /** Only one unit fits a size. */
  lemma UnitIndexUnique(bytes: nat, u: nat)
    requires u < |Units|
    requires u > 0 ==> Pow1024(u) <= bytes
    requires u < |Units| - 1 ==> bytes < Pow1024(u + 1)
    ensures u == UnitIndex(bytes)
  {
    var v := UnitIndex(bytes);
    if u < v {
      Pow1024Monotone(u + 1, v);
    } else if v < u {
      Pow1024Monotone(v + 1, u);
    }
  }

  /** The `while` loop of `format_bytes`: divide by 1024 while the size is at least 1024
      and a larger unit is left. */
  method ScaleBytes(bytes: nat) returns (size: real, unit: nat)
    ensures unit == UnitIndex(bytes)
    ensures size == Quotient(bytes, Pow1024(unit))
  {
    size := bytes as real;
    unit := 0;
    ghost var scale: nat := 1;
    while size >= 1024.0 && unit < |Units| - 1
      invariant unit < |Units| && scale == Pow1024(unit)
      invariant size * scale as real == bytes as real
      invariant unit > 0 ==> scale <= bytes
    {
      ScaleStep(size, scale, bytes);
      size := size / 1024.0;
      unit := unit + 1;
      scale := 1024 * scale;
    }
    if unit < |Units| - 1 {
      ScaleBelow(size, scale, bytes);
    }
    UnitIndexUnique(bytes, unit);
    ScaleQuotient(size, scale, bytes);
  }

  lemma ScaleStep(size: real, p: nat, bytes: nat)
    requires size >= 1024.0 && p >= 1 && size * p as real == bytes as real
    ensures size / 1024.0 * (1024 * p) as real == bytes as real
    ensures 1024 * p <= bytes
  {
    assert 1024.0 * p as real <= size * p as real;
  }

  lemma ScaleBelow(size: real, p: nat, bytes: nat)
    requires size < 1024.0 && p >= 1 && size * p as real == bytes as real
    ensures bytes < 1024 * p
  {
    var q := p as real;
    var gap := 1024.0 - size;
    PositiveProduct(gap, q);
    assert gap * q + size * q == 1024.0 * q;
  }

  lemma PositiveProduct(a: real, b: real)
    requires a > 0.0 && b > 0.0
    ensures a * b > 0.0
  {
  }

  lemma ScaleQuotient(size: real, p: nat, bytes: nat)
    requires p >= 1 && size * p as real == bytes as real
    ensures size == Quotient(bytes, p)
  {
  }

  /** A byte count in a unit of `p` bytes. */
  function Quotient(bytes: nat, p: nat): (size: real)
    requires p >= 1
    ensures size >= 0.0
  {
    bytes as real / p as real
  }

  /** `{:.1}`: rounded to tenths, an exact tie to the even tenth (1.25 is "1.2"). */
  function OneDecimal(x: real): (r: string)
    requires x >= 0.0
    ensures |r| >= 3 && r[|r| - 2] == '.'
  {
    var scaled := x * 10.0;
    var below := scaled.Floor;
    var fraction := scaled - below as real;
    var tenths := if fraction < 0.5 || (fraction == 0.5 && below % 2 == 0) then below else below + 1;
    NatToString(tenths / 10) + "." + [DigitChar(tenths % 10)]
  }

  /** What `format_bytes` prints: plain bytes as an integer, larger units with one
      decimal. */
  function BytesText(bytes: nat): (text: string)
    ensures bytes < 1024 ==> text == NatToString(bytes) + " B"
    ensures bytes >= 1024 ==> text == OneDecimal(Quotient(bytes, Pow1024(UnitIndex(bytes))))
                                      + " " + Units[UnitIndex(bytes)]
  {
    var u := UnitIndex(bytes);
    if bytes < 1024 then
      assert u == 0 by { UnitIndexUnique(bytes, 0); }
      NatToString(bytes) + " " + Units[u]
    else
      OneDecimal(Quotient(bytes, Pow1024(u))) + " " + Units[u]
  }

  /** `format_bytes`. */
  method FormatBytes(bytes: nat) returns (text: string)
    ensures text == BytesText(bytes)
  {
    var size, unit := ScaleBytes(bytes);
    if unit == 0 {
      text := NatToString(bytes) + " " + Units[unit];
    } else {
      text := OneDecimal(size) + " " + Units[unit];
    }
  }

  /** Sizes between consecutive powers of 1024 share a unit; beyond a petabyte the unit
      stays "PB". */
  lemma UnitBands(bytes: nat, u: nat)
    requires 0 < u < |Units| && Pow1024(u) <= bytes
    requires u < |Units| - 1 ==> bytes < Pow1024(u + 1)
    ensures UnitIndex(bytes) == u && bytes >= 1024
    ensures BytesText(bytes) == OneDecimal(Quotient(bytes, Pow1024(u))) + " " + Units[u]
  {
    UnitIndexUnique(bytes, u);
    Pow1024Monotone(1, u);
  }

  // ---------------------------------------------------------------------------
  // The monitor

  /** `DiskMonitor`: the volumes as last refreshed, and the per-mount histories. */
  class Monitor {
    var disks: seq<DiskReading>
    var history: map<string, seq<nat>>

    predicate Valid()
      reads this
    {
      Bounded(history, HistoryCap)
    }

    /** `DiskMonitor::new`, the volume list reading `disks`: no history yet. */
    constructor (readings: seq<DiskReading>)
      ensures Valid() && disks == readings && history == map[]
    {
      disks := readings;
      history := map[];
    }

    /** `refresh`, the volumes now reading `readings`: each one's used bytes pushed onto
        its mount point's history, which keeps its last 60 samples. */
    method Refresh(readings: seq<DiskReading>)
      requires Valid()
      modifies this
      ensures Valid()
      ensures disks == readings
      ensures history == RecordedHistory(old(history), readings)
    {
      disks := readings;
      var entries := Samples(readings);
      ghost var before := history;
      var recorded := history;
      var i := 0;
      while i < |entries|
        invariant i <= |entries|
        invariant recorded == RecordAll(before, entries[..i], HistoryCap)
        invariant disks == readings
      {
        var (mountPoint, used) := entries[i];
        var h := Pushed(if mountPoint in recorded then recorded[mountPoint] else [], used, HistoryCap);
        RecordAllPrefix(before, entries, i, HistoryCap, recorded, h);
        recorded := recorded[mountPoint := h];
        i := i + 1;
      }
      assert entries[..i] == entries;
      history := recorded;
      RecordedHistoryKeys(before, readings);
    }

    /** `get_all_disks`, in the volumes' order. */
    function AllDisks(): (infos: seq<DiskInfo>)
      reads this
      ensures |infos| == |disks|
      ensures forall i :: 0 <= i < |infos| ==> infos[i] == InfoOf(disks[i])
    {
      Map(disks, InfoOf)
    }

    /** `get_primary_disk`: the first volume mounted at "/". */
    function PrimaryDisk(): Option<DiskInfo>
      reads this
    {
      FindByMount(AllDisks(), "/")
    }

    /** `get_disk_by_mount_point`. */
    function DiskByMountPoint(mountPoint: string): Option<DiskInfo>
      reads this
    {
      FindByMount(AllDisks(), mountPoint)
    }

    /** `get_high_usage_disks(threshold)`: the volumes, in order, at least `threshold`
        percent used. */
    function HighUsageDisks(threshold: real): (high: seq<DiskInfo>)
      reads this
      ensures forall d :: d in high <==> d in AllDisks() && d.usagePercent >= threshold
    {
      var all := AllDisks();
      var p := (d: DiskInfo) => AtLeast(threshold, d);
      forall d ensures d in Filter(all, p) <==> d in all && p(d) {
        FilterMember(all, p, d);
      }
      Filter(all, p)
    }

    /** `get_disk_growth_rate`. */
    function GrowthRate(mountPoint: string): Option<real>
      reads this
    {
      Growth(history, mountPoint)
    }
  }

  /** No volume is more than 100 percent used, so a threshold above 100 reports none and a
      threshold of 0 or less reports them all. */
  lemma HighUsageExtremes(m: Monitor, threshold: real)
    ensures threshold > 100.0 ==> forall d :: d !in m.HighUsageDisks(threshold)
    ensures threshold <= 0.0 ==> forall i :: 0 <= i < |m.disks| ==> InfoOf(m.disks[i]) in m.HighUsageDisks(threshold)
  {
    var all := m.AllDisks();
    forall i | 0 <= i < |all| ensures 0.0 <= all[i].usagePercent <= 100.0 {
      InfoUsage(m.disks[i]);
    }
  }

  /** The primary disk, when there is one, is mounted at "/" and, unless a network file
      system, is a solid-state disk. */
  lemma PrimaryDiskIsRoot(m: Monitor)
    requires m.PrimaryDisk().Some?
    ensures m.PrimaryDisk().value.mountPoint == "/"
    ensures !IsNetworkFileSystem(m.PrimaryDisk().value.fileSystem) ==> m.PrimaryDisk().value.diskType == Ssd
  {
    var d := m.PrimaryDisk().value;
    if !IsNetworkFileSystem(d.fileSystem) {
      RootIsSsd(d.fileSystem);
    }
  }
}
