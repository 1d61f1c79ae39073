/** Power loss while a directory grows. Linking a cluster behind a directory changes
    two table entries: the old end of the chain, which is in use, and the new end. */
module GrowthCrash {
  import opened Common
  import opened Disk
  import opened Fat
  import opened Layout
  import opened Tree
  import opened View
  import opened Growth
  import opened Commit
  import opened Crash
  import opened Extension
  import opened History

  /** The four flushed batches of a creation that grows its directory. */
  ghost function GrowBatches(x: Extend): seq<seq<Event>>
    requires IsTable(x.g, x.fat) && IsTable(x.g, x.fat1)
  {
    [x.data, TableBatch(x.g, x.fat, x.fat1, 0), TableBatch(x.g, x.fat, x.fat1, 1),
     EntryBatch(Installed(x), NewSlot(x), x.entry)]
  }

  ghost function GrowPlan(x: Extend): seq<Event>
    requires IsTable(x.g, x.fat) && IsTable(x.g, x.fat1)
  {
    Joined(GrowBatches(x))
  }

  /** One copy of the table shows exactly these files and directories. */
  ghost predicate CopyShows(g: Geometry, d: Disk, copy: nat, depth: nat, nodes: map<Slot, Node>)
    requires g.Valid()
  {
    Nodes(g, d, DiskTable(g, d, copy), depth) == Some(nodes)
  }

  /** One copy shows the files before the call, the same with the longer directory,
      or the files after it. */
  ghost predicate Seen(x: Extend, d: Disk, copy: nat)
    requires Staged(x) && WellFormed(Publication(x))
  {
    var depth := DepthAfter(Publication(x));
    || CopyShows(x.g, d, copy, depth, Tree0(x))
    || CopyShows(x.g, d, copy, depth, Grown(x))
    || CopyShows(x.g, d, copy, depth, After(Publication(x)))
  }

  /** The entries of two clusters lie in one sector of the table. */
  predicate Neighbours(a: nat, b: nat) { (2 * a) / SECTOR == (2 * b) / SECTOR }

  /** Both changed entries lie in one sector of the table. */
  ghost predicate OneSector(x: Extend)
    requires Full(x)
  {
    Neighbours(Last(Chain0(x)), x.c)
  }

  // ----- Views through a given table ------------------------------------------------------

  /** Root directory and clusters in use are as before the call. */
  ghost predicate Unharmed(x: Extend, d: Disk)
    requires IsTable(x.g, x.fat)
  {
    && (forall i :: At(d, Root(i)) == At(x.d, Root(i)))
    && (forall c: nat, i :: !IsFree(x.g, x.fat, c) ==> At(d, Data(c, i)) == At(x.d, Data(c, i)))
  }

  ghost predicate Zeroed(x: Extend, d: Disk) {
    forall i :: 0 <= i < x.g.perCluster ==> At(d, Data(x.c, i)) == Zeros(SECTOR)
  }

  /** Every entry in use is as in the old table. */
  ghost predicate KeepsOld(x: Extend, t: seq<byte>)
    requires IsTable(x.g, x.fat)
  {
    && IsTable(x.g, t)
    && forall v :: ValidCluster(x.g, v) && !IsFree(x.g, x.fat, v) ==> Next(x.g, t, v) == Next(x.g, x.fat, v)
  }

  lemma OldView(x: Extend, d: Disk, t: seq<byte>)
    requires Staged(x) && Unharmed(x, d) && KeepsOld(x, t)
    ensures Nodes(x.g, d, t, x.depth) == Some(Tree0(x))
  {
    hide NodeAt, Live, EntryAt, Exclusive, Next, Hung, IsBatch, DiskTable, DirSlots, Apply;
    StagedBasics(x);
    NodesKeys(x.g, x.d, x.fat, x.depth);
    forall n, c | n in Tree0(x) && c in Tree0(x)[n].clusters
      ensures ValidCluster(x.g, c) && !IsFree(x.g, x.fat, c)
    {
      NodeChain(x.g, x.d, x.fat, n);
    }
    Frame(x.g, x.d, x.fat, d, t, x.depth, x.depth);
  }

  /** Any table that hangs the cluster on the directory shows the longer directory. */
  lemma GrownView(x: Extend, d: Disk, t: seq<byte>)
    requires Staged(x) && Unharmed(x, d) && Zeroed(x, d) && Hung(x.g, x.fat, Chain0(x), x.c, t)
    ensures Nodes(x.g, d, t, x.depth) == Some(Grown(x))
  {
    hide Live, NodeAt, DirSlots, RootSlots, EntryAt, Chain, Apply, DiskTable, Exclusive, Hung, IsBatch, Next;
    StagedBasics(x);
    var nodes := Tree0(x);
    NodesKeys(x.g, x.d, x.fat, x.depth);
    NodeChain(x.g, x.d, x.fat, x.dir);
    NodeEntry(x.g, x.d, x.fat, x.dir);
    HungTable(x.g, x.fat, Chain0(x), x.c, t);
    LongerChain(x.g, x.fat, First(nodes[x.dir].entry), Chain0(x), x.c, t);
    GrownSlotCount(x.g, Chain0(x), x.c);
    var w := Grow(x.g, x.d, x.fat, d, t, x.dir, x.c);
    forall n, c | n in nodes && c in nodes[n].clusters
      ensures !IsFree(x.g, x.fat, c)
      ensures n != x.dir && ValidCluster(x.g, c) ==> Next(x.g, t, c) == Next(x.g, x.fat, c)
    {
      NodeChain(x.g, x.d, x.fat, n);
      OtherLink(x.(fat1 := t), n, c);
    }
    GrowthView(w, x.depth);
  }

  lemma HungTable(g: Geometry, fat: seq<byte>, ch: seq<nat>, c: nat, t: seq<byte>)
    requires Hung(g, fat, ch, c, t)
    ensures IsTable(g, t) && IsFree(g, fat, c)
  {
  }

  // ----- Tables caught half written ---------------------------------------------------------

  /** Two entries of one sector are both old or both new in any mixture. */
  lemma MixedTogether(g: Geometry, fat: seq<byte>, fat': seq<byte>, mixed: seq<byte>, a: nat, b: nat)
    requires IsTable(g, fat) && IsTable(g, fat') && IsTable(g, mixed) && Mixed(g, fat, fat', mixed)
    requires ValidCluster(g, a) && ValidCluster(g, b) && (2 * a) / SECTOR == (2 * b) / SECTOR
    ensures (Next(g, mixed, a) == Next(g, fat, a) && Next(g, mixed, b) == Next(g, fat, b))
         || (Next(g, mixed, a) == Next(g, fat', a) && Next(g, mixed, b) == Next(g, fat', b))
  {
    var i := (2 * a) / SECTOR;
    NextInSector(g, mixed, a);
    NextInSector(g, mixed, b);
    NextInSector(g, fat, a);
    NextInSector(g, fat, b);
    NextInSector(g, fat', a);
    NextInSector(g, fat', b);
    assert TableSector(g, mixed, i) == TableSector(g, fat, i) || TableSector(g, mixed, i) == TableSector(g, fat', i);
  }

  /** An entry is read from the sector that holds it. */
  lemma NextInSector(g: Geometry, t: seq<byte>, c: nat)
    requires IsTable(g, t) && ValidCluster(g, c)
    ensures var i := (2 * c) / SECTOR; var k := 2 * c - SECTOR * i;
      i < g.fatSectors && 0 <= k && k + 2 <= SECTOR && Next(g, t, c) == U16(TableSector(g, t, i), k)
  {
    var i := (2 * c) / SECTOR;
    var k := 2 * c - SECTOR * i;
    assert TableSector(g, t, i)[k] == t[2 * c] && TableSector(g, t, i)[k + 1] == t[2 * c + 1];
  }

  /** With both entries in one sector, a half-written table shows the old or the grown tree. */
  lemma MixedView(x: Extend, d: Disk, t: seq<byte>)
    requires Staged(x) && OneSector(x) && Unharmed(x, d) && Zeroed(x, d) && IsTable(x.g, t)
    requires Mixed(x.g, x.fat, x.fat1, t)
    ensures Nodes(x.g, d, t, x.depth) in {Some(Tree0(x)), Some(Grown(x))}
  {
    hide Nodes, DiskTable, Exclusive, Mixed, Next, DirSlots, EntryAt, Apply, IsBatch;
    StagedBasics(x);
    var last := Last(Chain0(x));
    MixedTogether(x.g, x.fat, x.fat1, t, last, x.c);
    forall v | ValidCluster(x.g, v) && !IsFree(x.g, x.fat, v) && v != last
      ensures Next(x.g, t, v) == Next(x.g, x.fat, v)
    {
      MixedNext(x.g, x.fat, x.fat1, t, v);
    }
    if Next(x.g, t, last) == Next(x.g, x.fat, last) && Next(x.g, t, x.c) == Next(x.g, x.fat, x.c) {
      OldView(x, d, t);
    } else {
      GrownView(x, d, t);
    }
  }

  // ----- The phases -----------------------------------------------------------------------

  /** A copy shows the tree before or the tree with the longer directory. */
  ghost predicate OldOrGrown(x: Extend, d: Disk, copy: nat)
    requires Full(x)
  {
    CopyShows(x.g, d, copy, x.depth, Tree0(x)) || CopyShows(x.g, d, copy, x.depth, Grown(x))
  }

  lemma WhileStaging(x: Extend, d: Disk)
    requires Staged(x) && Between(x.d, Writes(x.data), d)
    ensures OldOrGrown(x, d, 0) && OldOrGrown(x, d, 1)
  {
    hide Nodes, DiskTable, Exclusive, Hung, DirSlots, EntryAt, Apply;
    StagedBasics(x);
    assert forall i :: At(d, Root(i)) == At(x.d, Root(i));
    assert forall copy, i :: At(d, Table(copy, i)) == At(x.d, Table(copy, i));
    SameTable(x.g, x.d, d, 0);
    SameTable(x.g, x.d, d, 1);
    OldView(x, d, x.fat);
  }

  /** The device with the data staged. */
  ghost function StagedDisk(x: Extend): Disk { Apply(x.d, x.data) }

  lemma StagedUnharmed(x: Extend, d: Disk)
    requires Staged(x) && forall a: Addr :: !a.Table? ==> At(d, a) == At(StagedDisk(x), a)
    ensures Unharmed(x, d) && Zeroed(x, d)
  {
    hide Staged, Full, DiskTable, Apply, Hung, IsFree, IsBatch, Writes;
    StagedBasics(x);
    DataPhase(x);
    StagedZeros(x);
    forall c: nat, i | !IsFree(x.g, x.fat, c)
      ensures At(d, Data(c, i)) == At(x.d, Data(c, i))
    {
      assert At(d, Data(c, i)) == At(StagedDisk(x), Data(c, i));
    }
  }

  lemma StagedZeros(x: Extend)
    requires Staged(x)
    ensures forall i :: 0 <= i < x.g.perCluster ==> At(StagedDisk(x), Data(x.c, i)) == Zeros(SECTOR)
  {
    hide Full, DiskTable, Apply, Hung, IsFree, IsBatch, Writes;
  }

  /** The first copy is being written: the second still shows the old tree. */
  lemma WhileFirstCopy(x: Extend, d: Disk)
    requires Staged(x) && Between(StagedDisk(x), Writes(TableBatch(x.g, x.fat, x.fat1, 0)), d)
    ensures OldOrGrown(x, d, 1) && (OneSector(x) ==> OldOrGrown(x, d, 0))
  {
    hide Nodes, DiskTable, Exclusive, Hung, TableBatch, Apply, Staged, Full, Between, Mixed;
    StagedBasics(x);
    DataPhase(x);
    CrashInTableBatch(x.g, StagedDisk(x), x.fat, x.fat1, 0, d);
    SameTable(x.g, StagedDisk(x), d, 1);
    StagedUnharmed(x, d);
    OldView(x, d, x.fat);
    if OneSector(x) { MixedView(x, d, DiskTable(x.g, d, 0)); }
  }

  /** The second copy is being written: the first shows the longer directory. */
  lemma WhileSecondCopy(x: Extend, d: Disk)
    requires Staged(x)
    requires Between(Apply(StagedDisk(x), TableBatch(x.g, x.fat, x.fat1, 0)), Writes(TableBatch(x.g, x.fat, x.fat1, 1)),
                     d)
    ensures OldOrGrown(x, d, 0) && (OneSector(x) ==> OldOrGrown(x, d, 1))
  {
    hide Nodes, DiskTable, Exclusive, Hung, TableBatch, Apply, Staged, Full, Between, Mixed;
    StagedBasics(x);
    DataPhase(x);
    var z := Apply(StagedDisk(x), TableBatch(x.g, x.fat, x.fat1, 0));
    TableBatchApplied(x.g, StagedDisk(x), x.fat, x.fat1, 0);
    SameTable(x.g, StagedDisk(x), z, 1);
    CrashInTableBatch(x.g, z, x.fat, x.fat1, 1, d);
    SameTable(x.g, z, d, 0);
    StagedUnharmed(x, d);
    GrownView(x, d, x.fat1);
    if OneSector(x) { MixedView(x, d, DiskTable(x.g, d, 1)); }
  }

  /** The tables are in place: publishing is an ordinary atomic mutation. */
  lemma WhilePublishing(x: Extend, d: Disk)
    requires Staged(x) && WellFormed(Publication(x))
    requires Between(Installed(x), Writes(EntryBatch(Installed(x), NewSlot(x), x.entry)), d)
    ensures Seen(x, d, 0) && Seen(x, d, 1)
  {
    hide Nodes, DiskTable, Exclusive, Hung, TableBatch, Staged, Full, Between, Stage, Batch, Installed, EntryBatch,
         WellFormed, After, Before, Located, DepthAfter, Shows, Grown;
    StagedBasics(x);
    PublicationStages(x);
    PublishCrash(Publication(x), d);
    NewSlotFirst(x);
    ShowsSeen(x, d);
  }

  lemma ShowsSeen(x: Extend, d: Disk)
    requires Staged(x) && WellFormed(Publication(x))
    requires var depth := DepthAfter(Publication(x));
      Shows(x.g, d, depth, Grown(x)) || Shows(x.g, d, depth, After(Publication(x)))
    ensures Seen(x, d, 0) && Seen(x, d, 1)
  {
    hide Nodes, DiskTable, Exclusive, Hung, Stage, Batch, Installed, EntryBatch, WellFormed, After, Before, Located,
         DepthAfter, Grown, Staged;
  }

  lemma WhenPublished(x: Extend, d: Disk)
    requires Staged(x) && WellFormed(Publication(x)) && Between(Finished(x), [], d)
    ensures Seen(x, d, 0) && Seen(x, d, 1)
  {
    hide Nodes, DiskTable, Exclusive, Hung, TableBatch, Staged, Full, Between, Stage, Batch, Installed, EntryBatch,
         WellFormed, After, Before, Located, DepthAfter, Shows, Grown;
    StagedBasics(x);
    PublicationStages(x);
    Completed(Publication(x), d);
    ShowsSeen(x, d);
  }

  // ----- Deeper audits -----------------------------------------------------------------------

  lemma Deeper(x: Extend, depth: nat)
    requires Staged(x) && x.depth <= depth
    ensures var y := x.(depth := depth);
      Staged(y) && Tree0(y) == Tree0(x) && Chain0(y) == Chain0(x) && Grown(y) == Grown(x)
  {
    hide Nodes, DiskTable, Exclusive, Hung, DirSlots, EntryAt, Apply, IsBatch;
    StagedBasics(x);
    SameSectors(x.g, x.d, x.fat, x.d, x.depth, depth);
  }

  lemma OldOrGrownSeen(x: Extend, d: Disk, copy: nat)
    requires Staged(x) && WellFormed(Publication(x))
    requires var y := x.(depth := DepthAfter(Publication(x)));
      Staged(y) && Tree0(y) == Tree0(x) && Grown(y) == Grown(x) && OldOrGrown(y, d, copy)
    ensures Seen(x, d, copy)
  {
    hide Nodes, DiskTable, Exclusive, Hung, DirSlots, EntryAt, Apply, IsBatch, WellFormed, DepthAfter, After;
  }

  // ----- The theorem -------------------------------------------------------------------------

  lemma GrowStages(x: Extend)
    requires Staged(x)
    ensures var b := GrowBatches(x);
      && |b| == 4
      && AllBatches(b)
      && Apply(x.d, Joined(b[..0])) == x.d && Apply(x.d, Joined(b[..1])) == StagedDisk(x)
      && Apply(x.d, Joined(b[..2])) == Apply(StagedDisk(x), TableBatch(x.g, x.fat, x.fat1, 0))
      && Apply(x.d, Joined(b[..3])) == Installed(x) && Apply(x.d, Joined(b[..4])) == Finished(x)
  {
    hide Apply, TableBatch, EntryBatch, Full, Hung, Joined, NewSlot, Staged, IsBatch, AllBatches;
    StagedBasics(x);
    DataIsBatch(x);
    TableBatchShape(x.g, x.fat, x.fat1, 0);
    TableBatchShape(x.g, x.fat, x.fat1, 1);
    EntryIsBatch(Installed(x), NewSlot(x), x.entry);
    FourStages(x.d, GrowBatches(x));
    FourBatches(x.data, TableBatch(x.g, x.fat, x.fat1, 0), TableBatch(x.g, x.fat, x.fat1, 1),
                EntryBatch(Installed(x), NewSlot(x), x.entry), GrowBatches(x));
  }

  lemma FourBatches(b0: seq<Event>, b1: seq<Event>, b2: seq<Event>, b3: seq<Event>, b: seq<seq<Event>>)
    requires IsBatch(b0) && IsBatch(b1) && IsBatch(b2) && IsBatch(b3) && b == [b0, b1, b2, b3]
    ensures AllBatches(b)
  {
    hide IsBatch;
  }

  predicate AllBatches(b: seq<seq<Event>>) {
    forall i :: 0 <= i < |b| ==> IsBatch(b[i])
  }

  lemma FourStages(d: Disk, b: seq<seq<Event>>)
    requires |b| == 4
    ensures Apply(d, Joined(b[..0])) == d && Apply(d, Joined(b[..1])) == Apply(d, b[0])
    ensures Apply(d, Joined(b[..2])) == Apply(Apply(d, b[0]), b[1])
    ensures Apply(d, Joined(b[..3])) == Apply(Apply(Apply(d, b[0]), b[1]), b[2])
    ensures Apply(d, Joined(b[..4])) == Apply(Apply(Apply(Apply(d, b[0]), b[1]), b[2]), b[3])
  {
    hide Apply, Joined;
    JoinedNone(b[..0]);
    ApplyNothing(d);
    AppliedStep(d, b, 0);
    AppliedStep(d, b, 1);
    AppliedStep(d, b, 2);
    AppliedStep(d, b, 3);
  }

  lemma DataIsBatch(x: Extend)
    requires Staged(x)
    ensures IsBatch(x.data)
  {
    hide Full, Hung, IsBatch, Apply;
  }

  lemma JoinedNone(b: seq<seq<Event>>)
    requires b == []
    ensures Joined(b) == []
  {
  }

  lemma AppliedStep(d: Disk, b: seq<seq<Event>>, i: nat)
    requires i < |b|
    ensures Apply(d, Joined(b[..i + 1])) == Apply(Apply(d, Joined(b[..i])), b[i])
  {
    hide Apply;
    assert b[..i + 1][..i] == b[..i];
    ApplyConcat(d, Joined(b[..i]), b[i]);
  }

  /** Wherever the power fails while a directory grows, one copy of the table is whole and
      shows the files before, with the longer directory, or after. If the two changed
      table entries share a sector, both copies do. */
  lemma CrashWhileGrowing(x: Extend, n: nat, d: Disk)
    requires Staged(x) && WellFormed(Publication(x)) && n <= |GrowPlan(x)| && CrashState(x.d, GrowPlan(x)[..n], d)
    ensures Seen(x, d, 0) || Seen(x, d, 1)
    ensures OneSector(x) ==> Seen(x, d, 0) && Seen(x, d, 1)
  {
    hide Apply, TableBatch, EntryBatch, Full, Hung, Joined, Staged, WellFormed, CrashState, Between, Installed,
         Finished, Publication, IsBatch, OldOrGrown, Seen, Grown;
    StagedBasics(x);
    GrowStages(x);
    var b := GrowBatches(x);
    var i := CrashInSomeBatch(x.d, b, n, d);
    if i == 3 {
      WhilePublishing(x, d);
    } else if i == 4 {
      WhenPublished(x, d);
    } else {
      BeforePublishing(x, i, d);
    }
  }

  /** A crash in one of the first three batches. */
  lemma BeforePublishing(x: Extend, i: nat, d: Disk)
    requires Staged(x) && WellFormed(Publication(x)) && i < 3
    requires Between(Apply(x.d, Joined(GrowBatches(x)[..i])), Writes(GrowBatches(x)[i]), d)
    ensures Seen(x, d, 0) || Seen(x, d, 1)
    ensures OneSector(x) ==> Seen(x, d, 0) && Seen(x, d, 1)
  {
    hide Apply, TableBatch, EntryBatch, Full, Hung, Joined, Staged, WellFormed, Between, Installed, Finished,
         Publication, IsBatch, OldOrGrown, Seen, Grown, Writes, DepthAfter;
    StagedBasics(x);
    GrowStages(x);
    var depth := DepthAfter(Publication(x));
    PublicationDepth(x);
    Deeper(x, depth);
    var y := x.(depth := depth);
    StagedBasics(y);
    if i == 0 { WhileStaging(y, d); } else if i == 1 { WhileFirstCopy(y, d); } else { WhileSecondCopy(y, d); }
    if OldOrGrown(y, d, 0) { OldOrGrownSeen(x, d, 0); }
    if OldOrGrown(y, d, 1) { OldOrGrownSeen(x, d, 1); }
  }

  lemma PublicationDepth(x: Extend)
    requires Full(x) && IsTable(x.g, x.fat1)
    ensures x.depth <= DepthAfter(Publication(x))
  {
  }

  // ----- The other half: entries in different sectors --------------------------------------

  /** The link to `c` is in place but `c` is still marked free. */
  ghost predicate Dangling(x: Extend, t: seq<byte>)
    requires Full(x)
  {
    && IsTable(x.g, t) && ValidCluster(x.g, Last(Chain0(x))) && ValidCluster(x.g, x.c)
    && Next(x.g, t, Last(Chain0(x))) == x.c && Next(x.g, t, x.c) == 0
    && forall v :: ValidCluster(x.g, v) && !IsFree(x.g, x.fat, v) && v != Last(Chain0(x)) ==>
         Next(x.g, t, v) == Next(x.g, x.fat, v)
  }

  /** Any chain from the same start follows the directory's clusters. */
  lemma {:induction false} Follows(g: Geometry, fat: seq<byte>, t: seq<byte>, ch: seq<nat>, other: seq<nat>, i: nat)
    requires IsTable(g, fat) && IsTable(g, t) && ch != [] && IsChain(g, fat, ch[0], ch) && IsChain(g, t, ch[0], other)
    requires forall k :: 0 <= k < |ch| - 1 ==> Next(g, t, ch[k]) == Next(g, fat, ch[k])
    requires i < |ch|
    ensures i < |other| && other[i] == ch[i]
    decreases i
  {
    if i > 0 {
      Follows(g, fat, t, ch, other, i - 1);
      assert Next(g, fat, ch[i - 1]) == ch[i];
      if i < |other| { assert Next(g, t, other[i - 1]) == other[i]; }
    }
  }

  /** A dangling link leaves the directory without a chain. */
  lemma NoChain(x: Extend, t: seq<byte>)
    requires Staged(x) && Dangling(x, t)
    ensures Chain(x.g, t, First(Tree0(x)[x.dir].entry)) == None
  {
    hide Live, NodeAt, DirSlots, RootSlots, EntryAt, Chain, Apply, DiskTable, Exclusive, IsBatch;
    StagedBasics(x);
    NodesKeys(x.g, x.d, x.fat, x.depth);
    NodeChain(x.g, x.d, x.fat, x.dir);
    var first, ch := First(Tree0(x)[x.dir].entry), Chain0(x);
    ChainExactly(x.g, x.fat, first, ch);
    if Chain(x.g, t, first).Some? {
      var other := Chain(x.g, t, first).value;
      ChainExactly(x.g, t, first, other);
      LinksBeforeLast(x, t);
      Follows(x.g, x.fat, t, ch, other, |ch| - 1);
      PassedThrough(x.g, t, first, other, |ch| - 1, x.c);
    }
  }

  lemma LinksBeforeLast(x: Extend, t: seq<byte>)
    requires Staged(x) && Dangling(x, t) && IsChain(x.g, x.fat, First(Tree0(x)[x.dir].entry), Chain0(x))
    ensures forall k :: 0 <= k < |Chain0(x)| - 1 ==> Next(x.g, t, Chain0(x)[k]) == Next(x.g, x.fat, Chain0(x)[k])
  {
    hide Nodes, Live, NodeAt, DirSlots, RootSlots, EntryAt, Chain, Apply, DiskTable, Exclusive, IsBatch;
    var ch := Chain0(x);
    forall k | 0 <= k < |ch| - 1
      ensures Next(x.g, t, ch[k]) == Next(x.g, x.fat, ch[k])
    {
      assert Next(x.g, x.fat, ch[k]) == ch[k + 1] && ch[k] != Last(ch);
    }
  }

  /** A cluster a chain passes through is not marked free. */
  lemma PassedThrough(g: Geometry, t: seq<byte>, first: nat, other: seq<nat>, i: nat, c: nat)
    requires IsTable(g, t) && IsChain(g, t, first, other) && i < |other|
    requires ValidCluster(g, c) && Next(g, t, other[i]) == c
    ensures Next(g, t, c) != 0
  {
    assert other[i + 1] == c;
    if i + 2 < |other| { assert Next(g, t, other[i + 1]) == other[i + 2]; }
  }

  /** Entries and chains of live nodes other than `dir` survive; `dir` has lost its chain. */
  ghost predicate Broken(g: Geometry, edit: Edit, dir: Slot, live: set<Slot>) {
    && Tables(g, edit) && edit.target == None && NodeAt(g, edit.d', edit.fat', dir) == None
    && forall n :: n in live && n != dir ==> NodeAt(g, edit.d, edit.fat, n).Some? && NodeKept(g, edit, n)
  }

  /** A listing that reaches a broken directory is refused as a whole. */
  lemma {:induction false} BrokenListing(g: Geometry, edit: Edit, dir: Slot, slots: seq<Slot>, self: nat, depth: nat,
                                         depth': nat)
    requires Tables(g, edit) && Live(g, edit.d, edit.fat, slots, self, depth).Some?
    requires dir in Live(g, edit.d, edit.fat, slots, self, depth).value
    requires Broken(g, edit, dir, Live(g, edit.d, edit.fat, slots, self, depth).value)
    requires forall i :: 0 <= i < |slots| ==> EntryAt(edit.d', slots[i]) == EntryAt(edit.d, slots[i])
    ensures Live(g, edit.d', edit.fat', slots, self, depth') == None
    decreases depth, |slots|
  {
    hide NodeAt, EntryAt, DirSlots, Chain, Classify, NodeKept, AfterDots, DotsRight;
    var kind := Classify(EntryAt(edit.d, slots[0]));
    assert forall i :: 0 <= i < |slots[1..]| ==> slots[1..][i] == slots[i + 1];
    if kind == Skipped || dir in Live(g, edit.d, edit.fat, slots[1..], self, depth).value {
      BrokenListing(g, edit, dir, slots[1..], self, depth, depth');
    } else {
      BrokenBelow(g, edit, dir, slots[0], self, depth, depth');
    }
  }

  lemma {:induction false} BrokenBelow(g: Geometry, edit: Edit, dir: Slot, s: Slot, self: nat, depth: nat, depth': nat)
    requires Tables(g, edit) && Held(g, edit.d, edit.fat, s, self, depth).Some?
    requires dir in Held(g, edit.d, edit.fat, s, self, depth).value
    requires Broken(g, edit, dir, Held(g, edit.d, edit.fat, s, self, depth).value)
    requires EntryAt(edit.d', s) == EntryAt(edit.d, s)
    ensures Held(g, edit.d', edit.fat', s, self, depth') == None
    decreases depth, 0
  {
    hide NodeAt, EntryAt, DirSlots, Chain, Classify, Live, NodeKept, DotsRight;
    if s != dir {
      var node := NodeAt(g, edit.d, edit.fat, s).value;
      KeptDirectory(g, edit, s);
      if depth' > 0 {
        BrokenListing(g, edit, dir, AfterDots(DirSlots(g, node.clusters)), First(EntryAt(edit.d, s)), depth - 1,
                      depth' - 1);
      }
    }
  }

  lemma KeptDirectory(g: Geometry, edit: Edit, s: Slot)
    requires Tables(g, edit) && edit.target == None && NodeAt(g, edit.d, edit.fat, s).Some? && NodeKept(g, edit, s)
    requires EntryAt(edit.d', s) == EntryAt(edit.d, s) && NodeAt(g, edit.d, edit.fat, s).value.DirNode?
    ensures NodeAt(g, edit.d', edit.fat', s) == NodeAt(g, edit.d, edit.fat, s)
    ensures var list := AfterDots(DirSlots(g, NodeAt(g, edit.d, edit.fat, s).value.clusters));
      forall i :: 0 <= i < |list| ==> EntryAt(edit.d', list[i]) == EntryAt(edit.d, list[i])
  {
    hide NodeAt, EntryAt, DirSlots, Chain;
    SameNode(g, edit.d, edit.fat, edit.d', edit.fat', s);
  }

  /** A table in which the link dangles describes no tree at all. */
  lemma DanglingShowsNothing(x: Extend, d: Disk, t: seq<byte>, depth: nat)
    requires Staged(x) && Unharmed(x, d) && Dangling(x, t)
    ensures Nodes(x.g, d, t, depth) == None
  {
    hide NodeAt, EntryAt, Live, DirSlots, RootSlots, AfterDots, Chain, Apply, DiskTable, Exclusive, IsBatch, Next,
         NodeKept, Classify, Unharmed;
    StagedBasics(x);
    NodesKeys(x.g, x.d, x.fat, x.depth);
    var edit := Edit(x.d, x.fat, d, t, None);
    var live := LiveTree(x.g, x.d, x.fat, x.depth).value;
    UnharmedRoot(x, d);
    UnharmedEntry(x, d, x.dir);
    NoChain(x, t);
    NoChainNoNode(x.g, x.d, x.fat, d, t, x.dir);
    forall n | n in live && n != x.dir
      ensures NodeAt(x.g, x.d, x.fat, n).Some? && NodeKept(x.g, edit, n)
    {
      OthersSurvive(x, d, t, n);
    }
    BrokenListing(x.g, edit, x.dir, RootSlots(x.g), 0, x.depth, depth);
  }

  lemma UnharmedRoot(x: Extend, d: Disk)
    requires IsTable(x.g, x.fat) && Unharmed(x, d)
    ensures forall i :: 0 <= i < |RootSlots(x.g)| ==> EntryAt(d, RootSlots(x.g)[i]) == EntryAt(x.d, RootSlots(x.g)[i])
  {
    forall i | 0 <= i < |RootSlots(x.g)|
      ensures EntryAt(d, RootSlots(x.g)[i]) == EntryAt(x.d, RootSlots(x.g)[i])
    {
      RootSlotsInRoot(x.g, i);
    }
  }

  /** Sectors of live nodes are in use. */
  lemma LiveInUse(x: Extend, n: Slot, c: nat)
    requires Full(x) && n in Tree0(x) && c in Tree0(x)[n].clusters
    ensures NodeAt(x.g, x.d, x.fat, n) == Some(Tree0(x)[n]) && ValidCluster(x.g, c) && !IsFree(x.g, x.fat, c)
  {
    hide NodeAt, EntryAt, Live, DirSlots, RootSlots, Chain, Exclusive, DiskTable;
    NodesKeys(x.g, x.d, x.fat, x.depth);
    NodeChain(x.g, x.d, x.fat, n);
  }

  lemma UnharmedEntry(x: Extend, d: Disk, n: Slot)
    requires Staged(x) && Unharmed(x, d) && n in Tree0(x)
    ensures EntryAt(d, n) == EntryAt(x.d, n)
  {
    hide NodeAt, Classify, Live, DirSlots, RootSlots, Exclusive, Next, EntryAt, Hung, IsBatch, DiskTable, Apply;
    StagedBasics(x);
    var nodes := Tree0(x);
    forall n, c | n in nodes && c in nodes[n].clusters
      ensures ValidCluster(x.g, c) && !IsFree(x.g, x.fat, c)
    {
      LiveInUse(x, n, c);
    }
    FrameEntry(x.g, Edit(x.d, x.fat, d, x.fat, None), x.depth, n);
  }

  lemma NoChainNoNode(g: Geometry, d: Disk, fat: seq<byte>, d': Disk, t: seq<byte>, s: Slot)
    requires g.perCluster > 0 && IsTable(g, fat) && IsTable(g, t) && NodeAt(g, d, fat, s).Some?
    requires NodeAt(g, d, fat, s).value.DirNode?
    requires EntryAt(d', s) == EntryAt(d, s) && Chain(g, t, First(NodeAt(g, d, fat, s).value.entry)) == None
    ensures NodeAt(g, d', t, s) == None
  {
    hide EntryAt, Chain, DirSlots, Content, ChainSectors;
  }

  lemma OthersSurvive(x: Extend, d: Disk, t: seq<byte>, n: Slot)
    requires Staged(x) && Unharmed(x, d) && Dangling(x, t) && n in Tree0(x) && n != x.dir
    ensures NodeAt(x.g, x.d, x.fat, n).Some? && NodeKept(x.g, Edit(x.d, x.fat, d, t, None), n)
  {
    hide NodeAt, Classify, Live, DirSlots, RootSlots, Next, EntryAt, Hung, IsBatch, DiskTable, Apply, NodeKept;
    StagedBasics(x);
    NodesKeys(x.g, x.d, x.fat, x.depth);
    var node := Tree0(x)[n];
    assert Last(Chain0(x)) in Chain0(x);
    forall c | c in node.clusters
      ensures ValidCluster(x.g, c) && !IsFree(x.g, x.fat, c) && c != Last(Chain0(x))
    {
      LiveInUse(x, n, c);
    }
    FrameNode(x.g, Edit(x.d, x.fat, d, t, None), n);
  }

  // ----- A reachable torn table ---------------------------------------------------------------

  /** Sector `i` of the first copy is new, the others are old, the data is staged. */
  ghost function TornDisk(x: Extend, i: nat): Disk
    requires IsTable(x.g, x.fat1) && i < x.g.fatSectors
  {
    StagedDisk(x)[Table(0, i) := TableSector(x.g, x.fat1, i)]
  }

  lemma {:induction false} ChangedIsWritten(g: Geometry, fat: seq<byte>, fat': seq<byte>, copy: nat, n: nat, i: nat)
    requires IsTable(g, fat) && IsTable(g, fat') && i < n <= g.fatSectors
    requires TableSector(g, fat, i) != TableSector(g, fat', i)
    ensures Write(Table(copy, i), TableSector(g, fat', i)) in ChangedSectors(g, fat, fat', copy, n)
    decreases n
  {
    hide TableSector;
    if i < n - 1 { ChangedIsWritten(g, fat, fat', copy, n - 1, i); }
  }

  /** The torn disk is what a crash may leave when the first copy's writes are issued but not flushed. */
  lemma TornReachable(x: Extend, i: nat) returns (n: nat)
    requires Staged(x) && i < x.g.fatSectors && TableSector(x.g, x.fat, i) != TableSector(x.g, x.fat1, i)
    ensures n <= |GrowPlan(x)| && CrashState(x.d, GrowPlan(x)[..n], TornDisk(x, i))
  {
    hide Apply, Full, Hung, Durable, Pending, ChangedSectors, TableSector, EntryBatch, Staged, IsBatch, GrowPlan,
         AllWrites, Settled, Between, CrashState, Audited, DiskTable, IsFree;
    StagedBasics(x);
    DataIsBatch(x);
    var changed := ChangedSectors(x.g, x.fat, x.fat1, 0, x.g.fatSectors);
    ChangedIsWritten(x.g, x.fat, x.fat1, 0, x.g.fatSectors, i);
    ChangedAllWrites(x.g, x.fat, x.fat1);
    BatchSettled(x.data);
    n := |x.data| + |changed|;
    PlanStarts(x, changed);
    OneOfMany(StagedDisk(x), changed, Table(0, i), TableSector(x.g, x.fat1, i));
    CrashAfterSettled(x.d, x.data, changed, TornDisk(x, i));
    assert CrashState(x.d, x.data + changed, TornDisk(x, i));
    assert GrowPlan(x)[..n] == x.data + changed;
  }

  lemma CrashAfterSettled(d0: Disk, settled: seq<Event>, writes: seq<Event>, d: Disk)
    requires Settled(settled) && AllWrites(writes) && Between(Apply(d0, settled), writes, d)
    ensures CrashState(d0, settled + writes, d)
  {
    hide Apply, Durable, Pending, Between;
    PendingAfterSettled(d0, settled, writes);
  }

  lemma ChangedAllWrites(g: Geometry, fat: seq<byte>, fat': seq<byte>)
    requires IsTable(g, fat) && IsTable(g, fat')
    ensures AllWrites(ChangedSectors(g, fat, fat', 0, g.fatSectors))
  {
    hide ChangedSectors, TableSector;
    ChangedSectorsAre(g, fat, fat', 0, g.fatSectors);
  }

  lemma BatchSettled(b: seq<Event>)
    requires IsBatch(b)
    ensures Settled(b)
  {
  }

  /** One pending write alone may have reached the medium. */
  lemma OneOfMany(base: Disk, writes: seq<Event>, a: Addr, s: Sector)
    requires Write(a, s) in writes
    ensures Between(base, writes, base[a := s])
  {
  }

  lemma PlanStarts(x: Extend, changed: seq<Event>)
    requires IsTable(x.g, x.fat) && IsTable(x.g, x.fat1)
    requires changed == ChangedSectors(x.g, x.fat, x.fat1, 0, x.g.fatSectors) && changed != []
    ensures var n := |x.data| + |changed|; n <= |GrowPlan(x)| && GrowPlan(x)[..n] == x.data + changed
  {
    hide ChangedSectors, EntryBatch, Installed, NewSlot;
    var b := GrowBatches(x);
    assert b[1] == changed + [Flush];
    JoinedPrefix(b);
  }

  lemma JoinedPrefix(b: seq<seq<Event>>)
    requires |b| == 4
    ensures Joined(b) == b[0] + b[1] + b[2] + b[3]
  {
    assert b[..3][..2] == b[..2] && b[..2][..1] == b[..1] && b[..1][..0] == [];
    assert Joined(b[..1]) == b[0];
    assert Joined(b[..2]) == b[0] + b[1];
    assert Joined(b[..3]) == b[0] + b[1] + b[2];
  }

  lemma TornTable(x: Extend, i: nat)
    requires Staged(x) && i == (2 * Last(Chain0(x))) / SECTOR && !OneSector(x)
    ensures i < x.g.fatSectors && TableSector(x.g, x.fat, i) != TableSector(x.g, x.fat1, i)
    ensures Dangling(x, DiskTable(x.g, TornDisk(x, i), 0)) && DiskTable(x.g, TornDisk(x, i), 1) == x.fat
  {
    hide Apply, Full, IsBatch, TableSector, DiskTable, Next, StagedDisk, Staged, U16, Mixed, TornDisk, Chain0;
    StagedBasics(x);
    var last := Last(Chain0(x));
    LastLink(x);
    NextInSector(x.g, x.fat, last);
    NextInSector(x.g, x.fat1, last);
    var t := DiskTable(x.g, TornDisk(x, i), 0);
    TornSectors(x, i);
    NextInSector(x.g, t, last);
    NextInSector(x.g, t, x.c);
    NextInSector(x.g, x.fat, x.c);
    TornOtherCopy(x, i);
    forall v | ValidCluster(x.g, v) && !IsFree(x.g, x.fat, v) && v != last
      ensures Next(x.g, t, v) == Next(x.g, x.fat, v)
    {
      MixedNext(x.g, x.fat, x.fat1, t, v);
    }
  }

  lemma TornOtherCopy(x: Extend, i: nat)
    requires Staged(x) && i < x.g.fatSectors
    ensures DiskTable(x.g, TornDisk(x, i), 1) == x.fat
  {
    hide Apply, Full, IsBatch, TableSector, DiskTable, Hung, Staged;
    StagedBasics(x);
    DataPhase(x);
    SameTable(x.g, StagedDisk(x), TornDisk(x, i), 1);
  }

  /** The directory's chain ended at its last cluster. */
  lemma LastLink(x: Extend)
    requires Staged(x)
    ensures ValidCluster(x.g, Last(Chain0(x))) && Next(x.g, x.fat, Last(Chain0(x))) >= FIRST_END
  {
    hide Live, NodeAt, DirSlots, RootSlots, EntryAt, Chain, Apply, DiskTable, Exclusive, IsBatch, Hung;
    StagedBasics(x);
    NodesKeys(x.g, x.d, x.fat, x.depth);
    NodeChain(x.g, x.d, x.fat, x.dir);
    ChainExactly(x.g, x.fat, First(Tree0(x)[x.dir].entry), Chain0(x));
  }

  lemma TornSectors(x: Extend, i: nat)
    requires Staged(x) && i < x.g.fatSectors
    ensures var t := DiskTable(x.g, TornDisk(x, i), 0);
      && TableSector(x.g, t, i) == TableSector(x.g, x.fat1, i)
      && (forall j :: 0 <= j < x.g.fatSectors && j != i ==> TableSector(x.g, t, j) == TableSector(x.g, x.fat, j))
      && Mixed(x.g, x.fat, x.fat1, t)
  {
    hide Apply, Full, IsBatch, TableSector, DiskTable, Hung, Staged;
    StagedBasics(x);
    DataPhase(x);
    var t := DiskTable(x.g, TornDisk(x, i), 0);
    forall j | 0 <= j < x.g.fatSectors
      ensures TableSector(x.g, t, j) == if j == i then TableSector(x.g, x.fat1, j) else TableSector(x.g, x.fat, j)
    {
      DiskTableSector(x.g, TornDisk(x, i), 0, j);
      DiskTableSector(x.g, StagedDisk(x), 0, j);
    }
  }

  ghost predicate BothAlwaysSeen(x: Extend)
    requires Staged(x) && WellFormed(Publication(x))
  {
    forall n: nat, d: Disk {:trigger CrashState(x.d, GrowPlan(x)[..n], d)} ::
      n <= |GrowPlan(x)| && CrashState(x.d, GrowPlan(x)[..n], d) ==> Seen(x, d, 0) && Seen(x, d, 1)
  }

  /** Both copies show a good tree at every crash point exactly when the two entries that
      change share a table sector. Otherwise some crash leaves a copy that describes no
      tree: the link is there and the cluster it names is still marked free. */
  lemma GrowthAtomicExactly(x: Extend)
    requires Staged(x) && WellFormed(Publication(x))
    ensures OneSector(x) <==> BothAlwaysSeen(x)
  {
    hide Staged, WellFormed, Publication, GrowPlan, CrashState, Seen, OneSector, BothAlwaysSeen, Full, DiskTable, Nodes;
    StagedBasics(x);
    if OneSector(x) {
      SeenEverywhere(x);
    } else {
      var n, d := TornCrash(x);
      if BothAlwaysSeen(x) { SeenAt(x, n, d); }
    }
  }

  lemma SeenEverywhere(x: Extend)
    requires Staged(x) && WellFormed(Publication(x)) && OneSector(x)
    ensures BothAlwaysSeen(x)
  {
    hide Staged, WellFormed, Publication, GrowPlan, CrashState, Seen, OneSector, Full, DiskTable, Nodes;
    StagedBasics(x);
    forall n: nat, d: Disk | n <= |GrowPlan(x)| && CrashState(x.d, GrowPlan(x)[..n], d)
      ensures Seen(x, d, 0) && Seen(x, d, 1)
    {
      CrashWhileGrowing(x, n, d);
    }
  }

  lemma SeenAt(x: Extend, n: nat, d: Disk)
    requires Staged(x) && WellFormed(Publication(x)) && BothAlwaysSeen(x) && n <= |GrowPlan(x)|
    requires CrashState(x.d, GrowPlan(x)[..n], d)
    ensures Seen(x, d, 0)
  {
    hide Staged, WellFormed, Publication, GrowPlan, CrashState, Seen, OneSector, Full, DiskTable, Nodes;
  }

  /** A crash that tears the first copy. */
  lemma TornCrash(x: Extend) returns (n: nat, d: Disk)
    requires Staged(x) && WellFormed(Publication(x)) && !OneSector(x)
    ensures n <= |GrowPlan(x)| && CrashState(x.d, GrowPlan(x)[..n], d)
    ensures forall depth: nat :: Nodes(x.g, d, DiskTable(x.g, d, 0), depth) == None
    ensures !Seen(x, d, 0) && DiskTable(x.g, d, 0) != DiskTable(x.g, d, 1)
  {
    hide Staged, WellFormed, Publication, GrowPlan, CrashState, OneSector, Nodes, DiskTable, Exclusive, Dangling, Full,
         Hung, After, Grown, DepthAfter;
    StagedBasics(x);
    var i: nat := (2 * Last(Chain0(x))) / SECTOR;
    TornTable(x, i);
    n := TornReachable(x, i);
    d := TornDisk(x, i);
    StagedUnharmed(x, d);
    forall depth: nat
      ensures Nodes(x.g, d, DiskTable(x.g, d, 0), depth) == None
    {
      DanglingShowsNothing(x, d, DiskTable(x.g, d, 0), depth);
    }
    OldTableShows(x, d);
  }

  lemma OldTableShows(x: Extend, d: Disk)
    requires Staged(x) && Unharmed(x, d)
    ensures Nodes(x.g, d, x.fat, x.depth).Some?
  {
    hide Nodes, DiskTable, Exclusive, Hung, DirSlots, EntryAt, Apply, IsBatch;
    StagedBasics(x);
    OldView(x, d, x.fat);
  }

  // ----- A run that may stop early ---------------------------------------------------------

  /** At every crash some copy of the table shows one of the trees. */
  ghost predicate SomeCopyRun(g: Geometry, d0: Disk, run: seq<Event>, depth: nat, views: seq<map<Slot, Node>>)
    requires g.Valid()
  {
    forall n: nat, d: Disk {:trigger CrashState(d0, run[..n], d)} :: n <= |run| && CrashState(d0, run[..n], d) ==>
      SomeCopy(g, d, depth, views)
  }

  ghost predicate SomeCopy(g: Geometry, d: Disk, depth: nat, views: seq<map<Slot, Node>>)
    requires g.Valid()
  {
    exists copy: nat, i :: copy < 2 && 0 <= i < |views| && CopyShows(g, d, copy, depth, views[i])
  }

  /** At every crash each copy of the table shows one of the trees. */
  ghost predicate BothCopiesRun(g: Geometry, d0: Disk, run: seq<Event>, depth: nat, views: seq<map<Slot, Node>>)
    requires g.Valid()
  {
    forall n: nat, d: Disk {:trigger CrashState(d0, run[..n], d)} :: n <= |run| && CrashState(d0, run[..n], d) ==>
      BothCopies(g, d, depth, views)
  }

  ghost predicate BothCopies(g: Geometry, d: Disk, depth: nat, views: seq<map<Slot, Node>>)
    requires g.Valid()
  {
    OneOf(g, d, 0, depth, views) && OneOf(g, d, 1, depth, views)
  }

  ghost predicate OneOf(g: Geometry, d: Disk, copy: nat, depth: nat, views: seq<map<Slot, Node>>)
    requires g.Valid()
  {
    exists i :: 0 <= i < |views| && CopyShows(g, d, copy, depth, views[i])
  }

  /** The trees a creation that grows its directory passes through. */
  ghost function GrowthViews(x: Extend): seq<map<Slot, Node>>
    requires Staged(x) && Located(Publication(x))
  {
    StagedBasics(x);
    [Tree0(x), Grown(x), After(Publication(x))]
  }

  lemma SeenIsSomeCopy(x: Extend, d: Disk, copy: nat)
    requires Staged(x) && WellFormed(Publication(x)) && copy < 2 && Seen(x, d, copy)
    ensures Located(Publication(x)) && SomeCopy(x.g, d, DepthAfter(Publication(x)), GrowthViews(x))
    ensures OneOf(x.g, d, copy, DepthAfter(Publication(x)), GrowthViews(x))
  {
    hide Staged, WellFormed, Publication, CopyShows, Tree0, Grown, After, DepthAfter, Full, Located;
    StagedBasics(x);
    Basics(Publication(x));
    var views, depth := GrowthViews(x), DepthAfter(Publication(x));
    assert views[0] == Tree0(x) && views[1] == Grown(x) && views[2] == After(Publication(x));
    assert
      || CopyShows(x.g, d, copy, depth, views[0]) || CopyShows(x.g, d, copy, depth, views[1])
      || CopyShows(x.g, d, copy, depth, views[2]);
  }

  lemma GrowthPrefix(x: Extend, run: seq<Event>)
    requires Staged(x) && WellFormed(Publication(x)) && run <= GrowPlan(x)
    ensures Located(Publication(x)) && SomeCopyRun(x.g, x.d, run, DepthAfter(Publication(x)), GrowthViews(x))
  {
    hide Staged, WellFormed, Publication, GrowPlan, CrashState, Seen, SomeCopy, GrowthViews, DepthAfter, Full, Located,
         OneOf;
    StagedBasics(x);
    Basics(Publication(x));
    forall n: nat, d: Disk | n <= |run| && CrashState(x.d, run[..n], d)
      ensures SomeCopy(x.g, d, DepthAfter(Publication(x)), GrowthViews(x))
    {
      assert run[..n] == GrowPlan(x)[..n];
      CrashWhileGrowing(x, n, d);
      SeenIsSomeCopy(x, d, if Seen(x, d, 0) then 0 else 1);
    }
  }

  lemma GrowthPrefixBoth(x: Extend, run: seq<Event>)
    requires Staged(x) && WellFormed(Publication(x)) && OneSector(x) && run <= GrowPlan(x)
    ensures Located(Publication(x)) && BothCopiesRun(x.g, x.d, run, DepthAfter(Publication(x)), GrowthViews(x))
  {
    hide Staged, WellFormed, Publication, GrowPlan, CrashState, Seen, SomeCopy, GrowthViews, DepthAfter, Full, Located,
         BothCopies, BothAlwaysSeen, OneSector;
    StagedBasics(x);
    Basics(Publication(x));
    SeenEverywhere(x);
    forall n: nat, d: Disk | n <= |run| && CrashState(x.d, run[..n], d)
      ensures BothCopies(x.g, d, DepthAfter(Publication(x)), GrowthViews(x))
    {
      assert run[..n] == GrowPlan(x)[..n];
      BothAt(x, n, d);
    }
  }

  lemma BothAt(x: Extend, n: nat, d: Disk)
    requires Staged(x) && WellFormed(Publication(x)) && BothAlwaysSeen(x) && n <= |GrowPlan(x)|
    requires CrashState(x.d, GrowPlan(x)[..n], d)
    ensures Located(Publication(x)) && BothCopies(x.g, d, DepthAfter(Publication(x)), GrowthViews(x))
  {
    hide Staged, WellFormed, Publication, GrowPlan, CrashState, Seen, SomeCopy, GrowthViews, DepthAfter, Full, Located,
         OneOf;
    SeenIsSomeCopy(x, d, 0);
    SeenIsSomeCopy(x, d, 1);
  }

  /** Two copies that agree are both the whole one. */
  lemma SomeCopyRecovers(g: Geometry, d0: Disk, run: seq<Event>, depth: nat, views: seq<map<Slot, Node>>)
    requires g.Valid() && SomeCopyRun(g, d0, run, depth, views)
    ensures Recoverable(g, d0, run, depth, views)
  {
    hide CrashState, Nodes, DiskTable;
    forall n: nat, d: Disk | n <= |run| && CrashState(d0, run[..n], d)
      ensures Recovers(g, d, depth, views)
    {
      if DiskTable(g, d, 0) == DiskTable(g, d, 1) {
        var copy: nat, i :| copy < 2 && 0 <= i < |views| && CopyShows(g, d, copy, depth, views[i]);
        assert Shows(g, d, depth, views[i]);
      }
    }
  }
}
