/** Volume geometry and the numbering of sectors and directory slots. */
module Layout {
  import opened Disk
  import opened Errors

  const FAT_SECTOR_LIMIT := 256
  const CLUSTER_SECTOR_LIMIT := 64
  const MIN_CLUSTERS := 4085
  const MAX_CLUSTERS := 65524
  const ENTRIES_PER_SECTOR := 16
  const ENTRY := 32
  const ROOT_ID := 1

  datatype Geometry = Geometry(
    sectors: nat, clusters: nat, perCluster: nat,
    fatStart: nat, fatSectors: nat, rootEntries: nat)
  {
    function RootStart(): nat { fatStart + 2 * fatSectors }

    function RootSectors(): nat { rootEntries / ENTRIES_PER_SECTOR }

    function DataStart(): nat { RootStart() + RootSectors() }

    predicate Valid() {
      && 1 <= fatStart && 1 <= fatSectors <= FAT_SECTOR_LIMIT
      && 1 <= perCluster <= CLUSTER_SECTOR_LIMIT
      && 16 <= rootEntries && rootEntries % ENTRIES_PER_SECTOR == 0
      && MIN_CLUSTERS <= clusters <= MAX_CLUSTERS
      && (clusters + 2) * 2 <= fatSectors * SECTOR
      && DataStart() + clusters * perCluster <= sectors
    }
  }

  /** The boot sector's parameter block. */
  datatype BootBlock = BootBlock(
    sectorBytes: nat, perCluster: nat, reserved: nat, copies: nat, entries: nat, small: nat,
    media: nat, fatSectors: nat, hidden: nat, large: nat, signed: bool)

  function ReadBlock(boot: Sector): BootBlock {
    BootBlock(U16(boot, 11), boot[13], U16(boot, 14), boot[16], U16(boot, 17), U16(boot, 19),
              boot[21], U16(boot, 22), U32(boot, 28), U32(boot, 32), boot[510] == 0x55 && boot[511] == 0xaa)
  }

  /** The geometry a boot sector describes, as the mount accepts it. */
  function ParseBoot(boot: Sector, deviceSectors: nat): (r: Result<Geometry>)
    ensures r.Success? ==> r.value.Valid() && r.value.sectors <= deviceSectors
    // No whole cluster of the volume is left out.
    ensures r.Success? ==> r.value.sectors < r.value.DataStart() + (r.value.clusters + 1) * r.value.perCluster
    ensures r.Failure? ==> r.error in {Invalid, Unsupported, FsError.Range}
  {
    Judge(ReadBlock(boot), deviceSectors)
  }

  function Judge(b: BootBlock, deviceSectors: nat): (r: Result<Geometry>)
    ensures r.Success? ==> r.value.Valid() && r.value.sectors <= deviceSectors
    ensures r.Success? ==> r.value.sectors < r.value.DataStart() + (r.value.clusters + 1) * r.value.perCluster
    ensures r.Failure? ==> r.error in {Invalid, Unsupported, FsError.Range}
  {
    var total := if b.small != 0 then b.small else b.large;
    if !b.signed || b.reserved == 0 || b.entries == 0 ||
       b.entries % ENTRIES_PER_SECTOR != 0 || b.fatSectors == 0 || total == 0 || (b.small != 0 && b.large != 0) ||
       b.perCluster !in {1, 2, 4, 8, 16, 32, 64, 128} || b.hidden != 0 ||
       (b.media != 0xf0 && b.media < 0xf8) then Failure(Invalid)
    else if b.sectorBytes != SECTOR || b.copies != 2 || b.perCluster > CLUSTER_SECTOR_LIMIT ||
            b.fatSectors > FAT_SECTOR_LIMIT then Failure(Unsupported)
    else if total > deviceSectors then Failure(FsError.Range)
    else Arrange(total, b.perCluster, b.reserved, b.fatSectors, b.entries)
  }

  /** Lay the regions out in `total` sectors: as many whole clusters as fit behind them. */
  function Arrange(total: nat, perCluster: nat, reserved: nat, fatSectors: nat, entries: nat): (r: Result<Geometry>)
    requires 1 <= perCluster <= CLUSTER_SECTOR_LIMIT && 1 <= reserved && 1 <= fatSectors <= FAT_SECTOR_LIMIT
    requires 0 < entries && entries % ENTRIES_PER_SECTOR == 0
    ensures r.Success? ==> r.value.Valid() && r.value.sectors == total
    ensures r.Success? ==> total < r.value.DataStart() + (r.value.clusters + 1) * r.value.perCluster
    ensures r.Failure? ==> r.error in {Unsupported, FsError.Range}
  {
    var dataStart := reserved + 2 * fatSectors + entries / ENTRIES_PER_SECTOR;
    if dataStart >= total then Failure(FsError.Range)
    else
      var clusters := (total - dataStart) / perCluster;
      DivisionBounds(total - dataStart, perCluster);
      if clusters < MIN_CLUSTERS || clusters > MAX_CLUSTERS then Failure(Unsupported)
      else if (clusters + 2) * 2 > fatSectors * SECTOR then Failure(FsError.Range)
      else Success(Geometry(total, clusters, perCluster, reserved, fatSectors, entries))
  }

  lemma DivisionBounds(n: nat, d: nat)
    requires d > 0
    ensures (n / d) * d <= n < (n / d + 1) * d
  {
  }

  /** Sectors that belong to the volume's tables, root directory or data. */
  predicate InVolume(g: Geometry, a: Addr) {
    match a
    case Table(copy, i) => copy < 2 && i < g.fatSectors
    case Root(i) => i < g.RootSectors()
    case Data(c, i) => 2 <= c < g.clusters + 2 && i < g.perCluster
  }

  /** The device sector number of a region address. */
  function Lba(g: Geometry, a: Addr): int {
    match a
    case Table(copy, i) => g.fatStart + copy * g.fatSectors + i
    case Root(i) => g.RootStart() + i
    case Data(c, i) => g.DataStart() + (c - 2) * g.perCluster + i
  }

  lemma MulMonotone(a: int, b: int, k: nat)
    requires a <= b
    ensures a * k <= b * k
  {
  }

  /** Every address lies in the range `write_sector` accepts. */
  lemma LbaInRange(g: Geometry, a: Addr)
    requires g.Valid() && InVolume(g, a)
    ensures g.fatStart <= Lba(g, a) < g.sectors
  {
    match a
    case Table(copy, i) =>
      MulMonotone(copy, 1, g.fatSectors);
      MulMonotone(0, g.clusters, g.perCluster);
    case Root(i) =>
      MulMonotone(0, g.clusters, g.perCluster);
    case Data(c, i) =>
      MulMonotone(0, c - 2, g.perCluster);
      MulMonotone(c - 1, g.clusters, g.perCluster);
      assert (c - 1) * g.perCluster == (c - 2) * g.perCluster + g.perCluster;
  }

  /** The three regions do not meet. */
  lemma LbaRegion(g: Geometry, a: Addr)
    requires g.Valid() && InVolume(g, a)
    ensures a.Table? ==> Lba(g, a) < g.RootStart()
    ensures a.Root? ==> g.RootStart() <= Lba(g, a) < g.DataStart()
    ensures a.Data? ==> g.DataStart() <= Lba(g, a)
  {
    if a.Table? {
      MulMonotone(a.copy, 1, g.fatSectors);
    } else if a.Data? {
      MulMonotone(0, a.cluster - 2, g.perCluster);
    }
  }

  /** Mixed-radix numbers with a digit below the base are unique. */
  lemma RowsDisjoint(row: int, i: nat, row': int, i': nat, width: nat)
    requires i < width && i' < width && row * width + i == row' * width + i'
    ensures row == row' && i == i'
  {
    if row < row' {
      MulMonotone(row + 1, row', width);
    } else if row' < row {
      MulMonotone(row' + 1, row, width);
    }
  }

  /** Distinct region addresses are distinct device sectors. */
  lemma LbaInjective(g: Geometry, a: Addr, b: Addr)
    requires g.Valid() && InVolume(g, a) && InVolume(g, b) && Lba(g, a) == Lba(g, b)
    ensures a == b
  {
    LbaRegion(g, a);
    LbaRegion(g, b);
    if a.Table? {
      RowsDisjoint(a.copy, a.index, b.copy, b.index, g.fatSectors);
    } else if a.Data? {
      RowsDisjoint(a.cluster - 2, a.index, b.cluster - 2, b.index, g.perCluster);
    }
  }

  type SlotIndex = n: nat | n < ENTRIES_PER_SECTOR

  /** A 32-byte directory slot: the stable identity of a file or directory. */
  datatype Slot = Slot(sector: Addr, index: SlotIndex)

  predicate IsSlot(g: Geometry, s: Slot) {
    InVolume(g, s.sector) && !s.sector.Table?
  }

  /** The number the backend reports for a slot; 1 is the root directory. */
  function SlotId(g: Geometry, s: Slot): int {
    Lba(g, s.sector) * ENTRIES_PER_SECTOR + s.index + 2
  }

  /** The range test of the backend's slot lookup; true for exactly the slot numbers. */
  predicate SlotIdInRange(g: Geometry, id: int) {
    id >= 2 &&
    var bytes := (id - 2) * ENTRY;
    var root := g.RootStart() * SECTOR;
    var data := g.DataStart() * SECTOR;
    (root <= bytes < root + g.rootEntries * ENTRY) ||
    (data <= bytes < data + g.clusters * (g.perCluster * SECTOR))
  }

  lemma SlotIdInjective(g: Geometry, a: Slot, b: Slot)
    requires g.Valid() && IsSlot(g, a) && IsSlot(g, b) && SlotId(g, a) == SlotId(g, b)
    ensures a == b
  {
    assert Lba(g, a.sector) == Lba(g, b.sector);
    LbaInjective(g, a.sector, b.sector);
  }

  lemma DataSectorInRange(g: Geometry, a: Addr)
    requires g.Valid() && InVolume(g, a) && a.Data?
    ensures g.DataStart() <= Lba(g, a)
    ensures (Lba(g, a) + 1) * SECTOR <= g.DataStart() * SECTOR + g.clusters * (g.perCluster * SECTOR)
  {
    MulMonotone(0, a.cluster - 2, g.perCluster);
    MulMonotone(a.cluster - 1, g.clusters, g.perCluster);
    assert g.clusters * (g.perCluster * SECTOR) == (g.clusters * g.perCluster) * SECTOR;
  }

  lemma SlotIdsAreInRange(g: Geometry, s: Slot)
    requires g.Valid() && IsSlot(g, s)
    ensures SlotId(g, s) != ROOT_ID && SlotIdInRange(g, SlotId(g, s))
  {
    LbaInRange(g, s.sector);
    var sector := Lba(g, s.sector);
    assert (SlotId(g, s) - 2) * ENTRY == sector * SECTOR + s.index * ENTRY;
    if s.sector.Data? { DataSectorInRange(g, s.sector); }
  }

  /** The data sector that many sectors into the data area. */
  lemma SectorAt(g: Geometry, within: nat) returns (a: Addr)
    requires g.Valid() && within < g.clusters * g.perCluster
    ensures a.Data? && InVolume(g, a) && Lba(g, a) == g.DataStart() + within
  {
    var c := within / g.perCluster;
    DivisionBounds(within, g.perCluster);
    if c >= g.clusters { MulMonotone(g.clusters, c, g.perCluster); }
    a := Data(c + 2, within - c * g.perCluster);
  }

  /** Every number in range names a slot, so the identity test accepts nothing else. */
  lemma SlotIdOnto(g: Geometry, id: int) returns (s: Slot)
    requires g.Valid() && SlotIdInRange(g, id)
    ensures IsSlot(g, s) && SlotId(g, s) == id
  {
    var sector, index := (id - 2) / ENTRIES_PER_SECTOR, (id - 2) % ENTRIES_PER_SECTOR;
    if sector < g.DataStart() {
      s := Slot(Root(sector - g.RootStart()), index);
    } else {
      assert g.clusters * (g.perCluster * SECTOR) == (g.clusters * g.perCluster) * SECTOR;
      var a := SectorAt(g, sector - g.DataStart());
      s := Slot(a, index);
    }
  }
}
