/** The ordered updates of a mutation — new data, both tables, one directory
    entry, release of the old chain — and what a crash between them leaves. */
module Commit {
  import opened Disk
  import opened Fat
  import opened Layout
  // ----- Writing the table ----------------------------------------------------------

  function TableSector(g: Geometry, fat: seq<byte>, i: nat): Sector
    requires IsTable(g, fat) && i < g.fatSectors
  {
    fat[SECTOR * i..SECTOR * i + SECTOR]
  }

  /** The table as one of its two copies on disk has it. */
  function DiskTable(g: Geometry, d: Disk, copy: nat): (r: seq<byte>)
    ensures |r| == g.fatSectors * SECTOR
    ensures g.Valid() ==> IsTable(g, r)
  {
    seq(g.fatSectors * SECTOR, j requires 0 <= j => At(d, Table(copy, j / SECTOR))[j % SECTOR])
  }

  lemma DiskTableSector(g: Geometry, d: Disk, copy: nat, i: nat)
    requires g.Valid() && i < g.fatSectors
    ensures TableSector(g, DiskTable(g, d, copy), i) == At(d, Table(copy, i))
  {
    var part, sector := TableSector(g, DiskTable(g, d, copy), i), At(d, Table(copy, i));
    forall k | 0 <= k < SECTOR
      ensures part[k] == sector[k]
    {
      assert part[k] == DiskTable(g, d, copy)[SECTOR * i + k];
      assert (SECTOR * i + k) / SECTOR == i && (SECTOR * i + k) % SECTOR == k;
    }
    assert part == sector;
  }

  lemma SameSectorsSameTable(g: Geometry, a: seq<byte>, b: seq<byte>)
    requires IsTable(g, a) && IsTable(g, b)
    requires forall i :: 0 <= i < g.fatSectors ==> TableSector(g, a, i) == TableSector(g, b, i)
    ensures a == b
  {
    forall j | 0 <= j < |a|
      ensures a[j] == b[j]
    {
      var i := j / SECTOR;
      assert TableSector(g, a, i)[j - SECTOR * i] == a[j];
      assert TableSector(g, b, i)[j - SECTOR * i] == b[j];
    }
  }

  /** Writes of the changed sectors below `n` of one copy, in order. */
  function ChangedSectors(g: Geometry, fat: seq<byte>, fat': seq<byte>, copy: nat, n: nat): seq<Event>
    requires IsTable(g, fat) && IsTable(g, fat') && n <= g.fatSectors
  {
    if n == 0 then []
    else
      var before := ChangedSectors(g, fat, fat', copy, n - 1);
      if TableSector(g, fat, n - 1) == TableSector(g, fat', n - 1) then before
      else before + [Write(Table(copy, n - 1), TableSector(g, fat', n - 1))]
  }

  /** Update one copy; a copy with no changed sector needs no flush. */
  function TableBatch(g: Geometry, fat: seq<byte>, fat': seq<byte>, copy: nat): seq<Event>
    requires IsTable(g, fat) && IsTable(g, fat')
  {
    var changed := ChangedSectors(g, fat, fat', copy, g.fatSectors);
    if changed == [] then [] else changed + [Flush]
  }

  lemma {:induction false} ChangedSectorsAre(g: Geometry, fat: seq<byte>, fat': seq<byte>, copy: nat, n: nat)
    requires IsTable(g, fat) && IsTable(g, fat') && n <= g.fatSectors
    ensures forall e :: e in ChangedSectors(g, fat, fat', copy, n) ==>
      && e.Write? && e.addr.Table? && e.addr.copy == copy && e.addr.index < n
      && e.data == TableSector(g, fat', e.addr.index)
      && TableSector(g, fat, e.addr.index) != TableSector(g, fat', e.addr.index)
    decreases n
  {
    if n > 0 { ChangedSectorsAre(g, fat, fat', copy, n - 1); }
  }

  lemma {:induction false} ChangedSectorsApplied(g: Geometry, d: Disk, fat: seq<byte>, fat': seq<byte>, copy: nat,
                                                 n: nat)
    requires IsTable(g, fat) && IsTable(g, fat') && n <= g.fatSectors
    requires forall i :: 0 <= i < g.fatSectors ==> At(d, Table(copy, i)) == TableSector(g, fat, i)
    ensures var d' := Apply(d, ChangedSectors(g, fat, fat', copy, n));
      && (forall i :: 0 <= i < n ==> At(d', Table(copy, i)) == TableSector(g, fat', i))
      && (forall i :: n <= i < g.fatSectors ==> At(d', Table(copy, i)) == TableSector(g, fat, i))
    ensures forall a: Addr :: !(a.Table? && a.copy == copy) ==>
      At(Apply(d, ChangedSectors(g, fat, fat', copy, n)), a) == At(d, a)
    decreases n
  {
    hide TableSector, Apply, ChangedSectors;
    if n > 0 {
      ChangedSectorsApplied(g, d, fat, fat', copy, n - 1);
      ChangedSectorsStep(g, d, fat, fat', copy, n);
    } else {
      assert ChangedSectors(g, fat, fat', copy, 0) == [] by { ChangedSectorsNone(g, fat, fat', copy); }
      ApplyNothing(d);
    }
  }

  lemma ChangedSectorsNone(g: Geometry, fat: seq<byte>, fat': seq<byte>, copy: nat)
    requires IsTable(g, fat) && IsTable(g, fat')
    ensures ChangedSectors(g, fat, fat', copy, 0) == []
  {
  }

  lemma ChangedSectorsStep(g: Geometry, d: Disk, fat: seq<byte>, fat': seq<byte>, copy: nat, n: nat)
    requires IsTable(g, fat) && IsTable(g, fat') && 0 < n <= g.fatSectors
    ensures var before := Apply(d, ChangedSectors(g, fat, fat', copy, n - 1));
      var after := Apply(d, ChangedSectors(g, fat, fat', copy, n));
      after == if TableSector(g, fat, n - 1) == TableSector(g, fat', n - 1) then before
               else before[Table(copy, n - 1) := TableSector(g, fat', n - 1)]
  {
    var before := ChangedSectors(g, fat, fat', copy, n - 1);
    var w := Write(Table(copy, n - 1), TableSector(g, fat', n - 1));
    assert (before + [w])[..|before + [w]| - 1] == before;
  }

  lemma TableBatchApplied(g: Geometry, d: Disk, fat: seq<byte>, fat': seq<byte>, copy: nat)
    requires g.Valid() && IsTable(g, fat) && IsTable(g, fat') && DiskTable(g, d, copy) == fat
    ensures IsBatch(TableBatch(g, fat, fat', copy))
    ensures DiskTable(g, Apply(d, TableBatch(g, fat, fat', copy)), copy) == fat'
    ensures forall a: Addr :: !(a.Table? && a.copy == copy) ==>
      At(Apply(d, TableBatch(g, fat, fat', copy)), a) == At(d, a)
  {
    hide ChangedSectors, DiskTable, TableSector;
    var changed := ChangedSectors(g, fat, fat', copy, g.fatSectors);
    ChangedSectorsAre(g, fat, fat', copy, g.fatSectors);
    forall i | 0 <= i < g.fatSectors
      ensures At(d, Table(copy, i)) == TableSector(g, fat, i)
    {
      DiskTableSector(g, d, copy, i);
    }
    ChangedSectorsApplied(g, d, fat, fat', copy, g.fatSectors);
    var after := Apply(d, TableBatch(g, fat, fat', copy));
    assert (changed + [Flush])[..|changed|] == changed;
    assert after == Apply(d, changed);
    forall i | 0 <= i < g.fatSectors
      ensures TableSector(g, DiskTable(g, after, copy), i) == TableSector(g, fat', i)
    {
      DiskTableSector(g, after, copy, i);
    }
    SameSectorsSameTable(g, DiskTable(g, after, copy), fat');
  }

  lemma SameTablesNoBatch(g: Geometry, fat: seq<byte>, copy: nat)
    requires IsTable(g, fat)
    ensures TableBatch(g, fat, fat, copy) == []
  {
    NothingChanged(g, fat, copy, g.fatSectors);
  }

  lemma {:induction false} NothingChanged(g: Geometry, fat: seq<byte>, copy: nat, n: nat)
    requires IsTable(g, fat) && n <= g.fatSectors
    ensures ChangedSectors(g, fat, fat, copy, n) == []
    decreases n
  {
    if n > 0 { NothingChanged(g, fat, copy, n - 1); }
  }

  /** Sector by sector, `mixed` is one of two tables. */
  ghost predicate Mixed(g: Geometry, fat: seq<byte>, fat': seq<byte>, mixed: seq<byte>)
    requires IsTable(g, fat) && IsTable(g, fat') && IsTable(g, mixed)
  {
    forall i :: 0 <= i < g.fatSectors ==>
      TableSector(g, mixed, i) == TableSector(g, fat, i) || TableSector(g, mixed, i) == TableSector(g, fat', i)
  }

  /** An entry both tables agree on is intact in any mixture of their sectors. */
  lemma MixedNext(g: Geometry, fat: seq<byte>, fat': seq<byte>, mixed: seq<byte>, c: nat)
    requires IsTable(g, fat) && IsTable(g, fat') && IsTable(g, mixed) && Mixed(g, fat, fat', mixed)
    requires ValidCluster(g, c) && Next(g, fat', c) == Next(g, fat, c)
    ensures Next(g, mixed, c) == Next(g, fat, c)
  {
    var i := (2 * c) / SECTOR;
    var k := 2 * c - SECTOR * i;
    assert 0 <= k && k + 1 < SECTOR;
    forall t | t in [fat, fat', mixed]
      ensures IsTable(g, t) && Next(g, t, c) == U16(TableSector(g, t, i), k)
    {
      assert TableSector(g, t, i)[k] == t[2 * c] && TableSector(g, t, i)[k + 1] == t[2 * c + 1];
    }
    assert fat in [fat, fat', mixed] && fat' in [fat, fat', mixed] && mixed in [fat, fat', mixed];
  }

  /** A crash while one copy is being written mixes that copy and leaves the rest. */
  lemma CrashInTableBatch(g: Geometry, base: Disk, fat: seq<byte>, fat': seq<byte>, copy: nat, d: Disk)
    requires g.Valid() && IsTable(g, fat) && IsTable(g, fat') && DiskTable(g, base, copy) == fat
    requires Between(base, Writes(TableBatch(g, fat, fat', copy)), d)
    ensures Mixed(g, fat, fat', DiskTable(g, d, copy))
    ensures forall a: Addr :: !(a.Table? && a.copy == copy) ==> At(d, a) == At(base, a)
  {
    hide ChangedSectors, DiskTable, TableSector;
    var changed := ChangedSectors(g, fat, fat', copy, g.fatSectors);
    ChangedSectorsAre(g, fat, fat', copy, g.fatSectors);
    assert (changed + [Flush])[..|changed|] == changed;
    assert Writes(TableBatch(g, fat, fat', copy)) == changed;
    forall i | 0 <= i < g.fatSectors
      ensures TableSector(g, DiskTable(g, d, copy), i) in [TableSector(g, fat, i), TableSector(g, fat', i)]
    {
      DiskTableSector(g, d, copy, i);
      DiskTableSector(g, base, copy, i);
    }
    forall a: Addr | !(a.Table? && a.copy == copy)
      ensures At(d, a) == At(base, a)
    {
    }
  }

  lemma SameTable(g: Geometry, d: Disk, d': Disk, copy: nat)
    requires forall i :: At(d', Table(copy, i)) == At(d, Table(copy, i))
    ensures DiskTable(g, d', copy) == DiskTable(g, d, copy)
  {
  }
}
