/** Mounting: from numbered device sectors to a volume whose table and regions are
    known, and what mounting finds after a power loss. */
module Mount {
  import opened Disk
  import opened Errors
  import opened Layout
  import opened Commit
  import opened Crash
  import opened Volume
  import History

  /** A block device by its numbered sectors. */
  datatype Device = Device(online: bool, sectorSize: nat, readOnly: bool, writes: bool, flushes: bool,
                           sectors: seq<Sector>)

  // ----- Regions ------------------------------------------------------------------------------

  /** The sector numbers of the two tables, the root directory and the clusters. */
  predicate InRegions(g: Geometry, n: int) {
    g.fatStart <= n < g.DataStart() + g.clusters * g.perCluster
  }

  /** The region address of a sector number. */
  function AddrOf(g: Geometry, n: int): (a: Addr)
    requires g.Valid() && InRegions(g, n)
    ensures InVolume(g, a) && Lba(g, a) == n
  {
    if n < g.fatStart + g.fatSectors then Table(0, n - g.fatStart)
    else if n < g.RootStart() then Table(1, n - g.fatStart - g.fatSectors)
    else if n < g.DataStart() then Root(n - g.RootStart())
    else
      var within := n - g.DataStart();
      DivisionBounds(within, g.perCluster);
      RowInRange(within, g.perCluster, g.clusters);
      Data(within / g.perCluster + 2, within - within / g.perCluster * g.perCluster)
  }

  lemma RowInRange(within: nat, width: nat, rows: nat)
    requires width > 0 && within < rows * width
    ensures within / width < rows
  {
    DivisionBounds(within, width);
    if within / width >= rows { MulMonotone(rows, within / width, width); }
  }

  lemma AddrInRegions(g: Geometry, a: Addr)
    requires g.Valid() && InVolume(g, a)
    ensures InRegions(g, Lba(g, a)) && AddrOf(g, Lba(g, a)) == a
  {
    hide AddrOf;
    LbaInRange(g, a);
    LbaRegion(g, a);
    MulMonotone(0, g.clusters, g.perCluster);
    if a.Data? {
      MulMonotone(a.cluster - 1, g.clusters, g.perCluster);
      assert (a.cluster - 1) * g.perCluster == (a.cluster - 2) * g.perCluster + g.perCluster;
    }
    LbaInjective(g, AddrOf(g, Lba(g, a)), a);
  }

  lemma AddrsDistinct(g: Geometry)
    requires g.Valid()
    ensures forall m, n :: InRegions(g, m) && InRegions(g, n) && AddrOf(g, m) == AddrOf(g, n) ==> m == n
  {
    hide AddrOf;
    forall m, n | InRegions(g, m) && InRegions(g, n) && AddrOf(g, m) == AddrOf(g, n)
      ensures m == n
    {
      assert Lba(g, AddrOf(g, m)) == m && Lba(g, AddrOf(g, n)) == n;
    }
  }

  /** The device's sectors by region. */
  function Regions(g: Geometry, sectors: seq<Sector>): Disk
    requires g.Valid() && g.sectors <= |sectors|
  {
    AddrsDistinct(g);
    map n | 0 <= n < |sectors| && InRegions(g, n) :: AddrOf(g, n) := sectors[n]
  }

  /** Region addresses read the sectors they stand for. */
  lemma RegionsRead(g: Geometry, sectors: seq<Sector>, a: Addr)
    requires g.Valid() && g.sectors <= |sectors| && InVolume(g, a)
    ensures 0 <= Lba(g, a) < |sectors| && At(Regions(g, sectors), a) == sectors[Lba(g, a)]
  {
    hide AddrOf;
    LbaInRange(g, a);
    AddrInRegions(g, a);
    AddrsDistinct(g);
    var n := Lba(g, a);
    assert AddrOf(g, n) in Regions(g, sectors);
  }

  // ----- What the mount checks ------------------------------------------------------------------

  /** The first two table entries carry the media byte and no error marks. */
  predicate Headed(fat: seq<byte>, media: byte)
    requires |fat| >= 4
  {
    U16(fat, 0) == 0xff00 + media && U16(fat, 2) % 0x4000 == 0x3fff
  }

  /** What a mount answers when no read and no allocation fails. */
  ghost function Verdict(device: Device): FsError {
    if !device.online then Unavailable
    else if device.sectorSize != SECTOR then Unsupported
    else if device.sectors == [] then FsError.Range
    else match ParseBoot(device.sectors[0], |device.sectors|)
      case Failure(error) => error
      case Success(g) =>
        var disk := Regions(g, device.sectors);
        if DiskTable(g, disk, 0) == DiskTable(g, disk, 1) && Headed(DiskTable(g, disk, 0), device.sectors[0][21])
        then Ok
        else IoError
  }

  /** Consecutive sectors as one run of bytes. */
  function Bytes(sectors: seq<Sector>, start: nat, count: nat): (r: seq<byte>)
    requires start + count <= |sectors|
    ensures |r| == count * SECTOR
  {
    seq(count * SECTOR, j requires 0 <= j < count * SECTOR => sectors[start + j / SECTOR][j % SECTOR])
  }

  lemma BytesAreTable(g: Geometry, sectors: seq<Sector>, copy: nat)
    requires g.Valid() && g.sectors <= |sectors| && copy < 2
    ensures var start := Lba(g, Table(copy, 0)); 0 <= start && start + g.fatSectors <= |sectors|
    ensures Bytes(sectors, Lba(g, Table(copy, 0)), g.fatSectors) == DiskTable(g, Regions(g, sectors), copy)
  {
    hide Regions;
    LbaInRange(g, Table(copy, g.fatSectors - 1));
    var start := Lba(g, Table(copy, 0));
    var bytes, table := Bytes(sectors, start, g.fatSectors), DiskTable(g, Regions(g, sectors), copy);
    forall j | 0 <= j < |bytes|
      ensures bytes[j] == table[j]
    {
      RegionsRead(g, sectors, Table(copy, j / SECTOR));
    }
  }

  lemma SectorOfTable(g: Geometry, sectors: seq<Sector>, copy: nat, i: nat)
    requires g.Valid() && g.sectors <= |sectors| && copy < 2 && i < g.fatSectors
    ensures var n := Lba(g, Table(copy, i));
      0 <= n < |sectors| && TableSector(g, DiskTable(g, Regions(g, sectors), copy), i) == sectors[n]
  {
    hide Regions, DiskTable;
    DiskTableSector(g, Regions(g, sectors), copy, i);
    RegionsRead(g, sectors, Table(copy, i));
  }

  /** Compare the second copy with `fat`, a sector at a time. */
  method Compare(g: Geometry, sectors: seq<Sector>, fat: seq<byte>) returns (error: FsError, failed: bool)
    requires g.Valid() && g.sectors <= |sectors| && fat == DiskTable(g, Regions(g, sectors), 0)
    ensures error in {Ok, IoError} && (failed ==> error == IoError)
    ensures !failed ==> (error == Ok <==> DiskTable(g, Regions(g, sectors), 1) == fat)
  {
    hide Regions, DiskTable;
    ghost var second := DiskTable(g, Regions(g, sectors), 1);
    for i := 0 to g.fatSectors
      invariant forall k :: 0 <= k < i ==> TableSector(g, second, k) == TableSector(g, fat, k)
    {
      failed := *;
      if failed { return IoError, true; }
      SectorOfTable(g, sectors, 1, i);
      if fat[SECTOR * i..SECTOR * i + SECTOR] != sectors[g.fatStart + g.fatSectors + i] {
        assert TableSector(g, second, i) != TableSector(g, fat, i);
        return IoError, false;
      }
    }
    SameSectorsSameTable(g, second, fat);
    error, failed := Ok, false;
  }

  /** Read the boot sector and its parameters. */
  method ReadGeometry(device: Device) returns (error: FsError, g: Geometry, media: byte, failed: bool)
    ensures failed ==> error == IoError
    ensures error == Ok ==> device.online && device.sectorSize == SECTOR && device.sectors != []
    ensures error == Ok ==>
      ParseBoot(device.sectors[0], |device.sectors|) == Success(g) && media == device.sectors[0][21]
    ensures !failed && error != Ok ==> error == Verdict(device)
  {
    hide ParseBoot, Regions, DiskTable;
    g, media, failed := Geometry(0, 0, 0, 0, 0, 0), 0, false;
    if !device.online { return Unavailable, g, media, failed; }
    if device.sectorSize != SECTOR { return Unsupported, g, media, failed; }
    if device.sectors == [] { return FsError.Range, g, media, failed; }
    failed := *;
    if failed { return IoError, g, media, failed; }
    var boot := device.sectors[0];
    var parsed := ParseBoot(boot, |device.sectors|);
    if parsed.Failure? { return parsed.error, g, media, failed; }
    error, g, media := Ok, parsed.value, boot[21];
  }

  /** Mount: parse the boot sector, read one table, insist that the other is identical
      and that the reserved entries are in order. The files are not looked at. */
  method MountVolume(device: Device, readOnly: bool) returns (error: FsError, volume: FatVolume?, failed: bool)
    ensures failed ==> error in {IoError, NoMemory}
    ensures !failed ==> error == Verdict(device)
    ensures error == Ok <==> volume != null
    ensures error == Ok ==>
      fresh(volume) && Verdict(device) == Ok && volume.g == ParseBoot(device.sectors[0], |device.sectors|).value
    ensures error == Ok ==>
      volume.Consistent() && volume.disk == Regions(volume.g, device.sectors) && volume.origin == volume.disk
    ensures error == Ok ==> !volume.faulted && !volume.audited && volume.trace == [] && volume.history == []
    ensures error == Ok ==> (volume.writable <==> !readOnly && !device.readOnly && device.writes && device.flushes)
  {
    hide ParseBoot, Regions, DiskTable;
    volume, failed := null, false;
    var g, media;
    error, g, media, failed := ReadGeometry(device);
    if error != Ok { return; }
    var noMemory: bool, unread: bool := *, *;
    if noMemory { return NoMemory, null, true; }
    if unread { return IoError, null, true; }
    var fat := Bytes(device.sectors, g.fatStart, g.fatSectors);
    BytesAreTable(g, device.sectors, 0);
    error, failed := Compare(g, device.sectors, fat);
    if error != Ok { return; }
    if !Headed(fat, media) { return IoError, null, false; }
    volume := new FatVolume(g, Regions(g, device.sectors), fat,
                            !readOnly && !device.readOnly && device.writes && device.flushes);
  }

  // ----- Mounting again after a power loss ---------------------------------------------------------

  /** Whatever the power loss left, a mount that accepts the device finds the outcome of
      all completed calls or a tree of the call that was interrupted. */
  lemma RemountFinds(v: FatVolume, n: nat, device: Device) returns (i: nat)
    requires v.Logged() && v.history != [] && n <= |v.trace|
    requires Verdict(device) == Ok && ParseBoot(device.sectors[0], |device.sectors|) == Success(v.g)
    requires CrashState(v.origin, v.trace[..n], Regions(v.g, device.sectors))
    ensures i < |v.history|
    ensures |History.Issue(v.history[..i])| <= n <= |History.Issue(v.history[..i])| + |v.history[i].run|
    ensures exists k ::
        && 0 <= k < |v.history[i].views|
        && Shows(v.g, Regions(v.g, device.sectors), v.history[i].depth, v.history[i].views[k])
  {
    hide ParseBoot, Regions, DiskTable, Shows, History.Recorded, History.Issue, CrashState, Headed, History.Survives;
    i := History.CrashAnyTime(v.g, v.origin, v.history, n, Regions(v.g, device.sectors));
  }
}
