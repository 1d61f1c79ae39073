/** Creating an entry in a full subdirectory: the directory first gains a zeroed
    cluster in the same table update that installs the new chain, then the entry
    is published in the new cluster's first slot. */
module Extension {
  import opened Common
  import opened Disk
  import opened Fat
  import opened Layout
  import opened Tree
  import opened View
  import opened Growth
  import opened Commit
  import opened Crash
  import opened FileData
  import opened Mutations

  /** Stage `data`, install `fat1` that hangs `c` on `dir`, publish `entry`. */
  datatype Extend = Extend(
    g: Geometry, d: Disk, fat: seq<byte>, depth: nat, dir: Slot,
    data: seq<Event>, fat1: seq<byte>, c: nat, entry: Entry)

  ghost function Tree0(x: Extend): map<Slot, Node>
    requires Audited(x.g, x.d, x.fat, x.depth)
  {
    Nodes(x.g, x.d, x.fat, x.depth).value
  }

  /** A full directory of a healthy volume. */
  ghost predicate Full(x: Extend) {
    && Audited(x.g, x.d, x.fat, x.depth)
    && DiskTable(x.g, x.d, 0) == x.fat && DiskTable(x.g, x.d, 1) == x.fat
    && x.dir in Tree0(x) && Tree0(x)[x.dir].DirNode? && Tree0(x)[x.dir].clusters != []
    && var slots := DirSlots(x.g, Tree0(x)[x.dir].clusters);
       && |slots| + x.g.perCluster * ENTRIES_PER_SECTOR <= DIRECTORY_ENTRY_LIMIT
       && forall i :: 0 <= i < |slots| ==> EntryAt(x.d, slots[i])[0] != 0
  }

  ghost function Chain0(x: Extend): seq<nat>
    requires Full(x)
  {
    Tree0(x)[x.dir].clusters
  }

  function Last(ch: seq<nat>): nat
    requires ch != []
  {
    ch[|ch| - 1]
  }

  /** `c` is linked behind the directory's last cluster; every other entry in use is kept. */
  ghost predicate Hung(g: Geometry, fat: seq<byte>, ch: seq<nat>, c: nat, fat1: seq<byte>) {
    && IsTable(g, fat) && IsTable(g, fat1) && ch != [] && ValidCluster(g, Last(ch)) && IsFree(g, fat, c)
    && Next(g, fat1, Last(ch)) == c && Next(g, fat1, c) == END_MARK
    && forall v :: ValidCluster(g, v) && !IsFree(g, fat, v) && v != Last(ch) ==> Next(g, fat1, v) == Next(g, fat, v)
  }

  ghost predicate Staged(x: Extend) {
    && Full(x) && Hung(x.g, x.fat, Chain0(x), x.c, x.fat1)
    && IsBatch(x.data)
    && (forall e :: e in Writes(x.data) ==> e.Write? && e.addr.Data? && IsFree(x.g, x.fat, e.addr.cluster))
    && (forall i :: 0 <= i < x.g.perCluster ==> At(Apply(x.d, x.data), Data(x.c, i)) == Zeros(SECTOR))
  }

  ghost function Installed(x: Extend): Disk
    requires IsTable(x.g, x.fat) && IsTable(x.g, x.fat1)
  {
    Apply(Apply(Apply(x.d, x.data), TableBatch(x.g, x.fat, x.fat1, 0)), TableBatch(x.g, x.fat, x.fat1, 1))
  }

  function GrowthOf(x: Extend, d': Disk): Grow { Grow(x.g, x.d, x.fat, d', x.fat1, x.dir, x.c) }

  /** Publication as an ordinary mutation of the grown volume. */
  ghost function Publication(x: Extend): Mutation
    requires Full(x) && IsTable(x.g, x.fat1)
  {
    Mutation(x.g, Installed(x), x.fat1, x.depth, InDir(x.dir, |AfterDots(DirSlots(x.g, Chain0(x)))|),
             [], x.fat1, x.entry, x.fat1)
  }

  function NewSlot(x: Extend): Slot { Slot(Data(x.c, 0), 0) }

  ghost function Grown(x: Extend): map<Slot, Node>
    requires Full(x)
  {
    Tree0(x)[x.dir := DirNode(Tree0(x)[x.dir].entry, Chain0(x) + [x.c])]
  }

  // ----- The tables are installed ------------------------------------------------------

  lemma StagedBasics(x: Extend)
    requires Staged(x)
    ensures Full(x) && x.g.Valid() && IsTable(x.g, x.fat) && IsTable(x.g, x.fat1) && Audited(x.g, x.d, x.fat, x.depth)
    ensures Hung(x.g, x.fat, Chain0(x), x.c, x.fat1) && DiskTable(x.g, x.d, 0) == x.fat
    ensures DiskTable(x.g, x.d, 1) == x.fat
    ensures IsFree(x.g, x.fat, x.c)
  {
  }

  /** Staged data reaches free clusters only. */
  lemma DataPhase(x: Extend)
    requires Staged(x)
    ensures var y := Apply(x.d, x.data);
      && DiskTable(x.g, y, 0) == x.fat && DiskTable(x.g, y, 1) == x.fat
      && (forall i :: At(y, Root(i)) == At(x.d, Root(i)))
      && (forall c: nat, i :: !IsFree(x.g, x.fat, c) ==> At(y, Data(c, i)) == At(x.d, Data(c, i)))
  {
    hide Full, DiskTable, Apply, Hung, IsFree;
    StagedBasics(x);
    BatchIsBetween(x.d, x.data);
    var y := Apply(x.d, x.data);
    assert forall i :: At(y, Root(i)) == At(x.d, Root(i));
    assert forall copy, i :: At(y, Table(copy, i)) == At(x.d, Table(copy, i));
    SameTable(x.g, x.d, y, 0);
    SameTable(x.g, x.d, y, 1);
  }

  lemma TablePhase(x: Extend)
    requires Staged(x)
    ensures DiskTable(x.g, Installed(x), 0) == x.fat1 && DiskTable(x.g, Installed(x), 1) == x.fat1
    ensures forall a: Addr :: !a.Table? ==> At(Installed(x), a) == At(Apply(x.d, x.data), a)
  {
    hide Full, DiskTable, Apply, Hung, TableBatch, Staged;
    StagedBasics(x);
    DataPhase(x);
    var y := Apply(x.d, x.data);
    var z := Apply(y, TableBatch(x.g, x.fat, x.fat1, 0));
    TableBatchApplied(x.g, y, x.fat, x.fat1, 0);
    SameTable(x.g, y, z, 1);
    TableBatchApplied(x.g, z, x.fat, x.fat1, 1);
    SameTable(x.g, z, Installed(x), 0);
  }

  lemma LongerChain(g: Geometry, fat: seq<byte>, first: nat, ch: seq<nat>, c: nat, fat1: seq<byte>)
    requires Hung(g, fat, ch, c, fat1) && Chain(g, fat, first) == Some(ch)
    ensures Chain(g, fat1, first) == Some(ch + [c])
  {
    hide Chain;
    ChainExactly(g, fat, first, ch);
    var longer := ch + [c];
    forall i | 0 <= i < |longer| - 1
      ensures Next(g, fat1, longer[i]) == longer[i + 1]
    {
      if i < |ch| - 1 { assert Next(g, fat, ch[i]) == ch[i + 1] && ch[i] != Last(ch); }
    }
    forall i | 0 <= i < |ch|
      ensures ch[i] != c
    {
      if i < |ch| - 1 { assert Next(g, fat, ch[i]) == ch[i + 1]; }
    }
    ChainExactly(g, fat1, first, longer);
  }

  lemma GrownSlotCount(g: Geometry, ch: seq<nat>, c: nat)
    requires g.perCluster > 0
    ensures |DirSlots(g, ch + [c])| == |DirSlots(g, ch)| + g.perCluster * ENTRIES_PER_SECTOR
  {
    ChainSectorsLength(g, ch);
    ChainSectorsLength(g, ch + [c]);
    assert (|ch| + 1) * g.perCluster == |ch| * g.perCluster + g.perCluster;
  }

  lemma ExtensionGrows(x: Extend)
    requires Staged(x)
    ensures GrowsFrom(GrowthOf(x, Installed(x)), x.depth)
  {
    hide Live, NodeAt, DirSlots, RootSlots, EntryAt, Chain, Apply, DiskTable, TableBatch, Exclusive, Installed, Hung,
         IsBatch, Next;
    StagedBasics(x);
    DataPhase(x);
    TablePhase(x);
    var nodes := Tree0(x);
    NodesKeys(x.g, x.d, x.fat, x.depth);
    NodeChain(x.g, x.d, x.fat, x.dir);
    NodeEntry(x.g, x.d, x.fat, x.dir);
    LongerChain(x.g, x.fat, First(nodes[x.dir].entry), Chain0(x), x.c, x.fat1);
    GrownSlotCount(x.g, Chain0(x), x.c);
    forall n, c | n in nodes && c in nodes[n].clusters
      ensures !IsFree(x.g, x.fat, c)
      ensures n != x.dir && ValidCluster(x.g, c) ==> Next(x.g, x.fat1, c) == Next(x.g, x.fat, c)
    {
      NodeChain(x.g, x.d, x.fat, n);
      OtherLink(x, n, c);
    }
  }

  /** Only the grown directory holds the link that changes. */
  lemma OtherLink(x: Extend, n: Slot, c: nat)
    requires Staged(x) && n in Tree0(x) && c in Tree0(x)[n].clusters
    ensures n != x.dir && ValidCluster(x.g, c) ==> Next(x.g, x.fat1, c) == Next(x.g, x.fat, c)
  {
    hide Live, NodeAt, DirSlots, RootSlots, EntryAt, Chain, Apply, DiskTable, IsBatch;
    NodesKeys(x.g, x.d, x.fat, x.depth);
    NodeChain(x.g, x.d, x.fat, n);
    assert Last(Chain0(x)) in Chain0(x);
  }

  /** Once installed, the directory has one more cluster and nothing else differs. */
  lemma InstalledHealthy(x: Extend)
    requires Staged(x)
    ensures Audited(x.g, Installed(x), x.fat1, x.depth)
    ensures Nodes(x.g, Installed(x), x.fat1, x.depth) == Some(Grown(x))
    ensures DiskTable(x.g, Installed(x), 0) == x.fat1 && DiskTable(x.g, Installed(x), 1) == x.fat1
  {
    hide Nodes, DiskTable, Installed, Exclusive;
    StagedBasics(x);
    TablePhase(x);
    ExtensionGrows(x);
    GrowthView(GrowthOf(x, Installed(x)), x.depth);
  }

  // ----- Publication ---------------------------------------------------------------------

  lemma NewSlotFirst(x: Extend)
    requires Staged(x)
    ensures Located(Publication(x)) && Crash.Target(Publication(x)) == NewSlot(x) && Before(Publication(x)) == Grown(x)
    ensures Classify(EntryAt(Installed(x), NewSlot(x))) == EndMark
    ensures !ClearsNext(Publication(x))
  {
    hide Nodes, DiskTable, Installed, Exclusive, DirSlots, Classify, EntryAt;
    StagedBasics(x);
    InstalledHealthy(x);
    var old', all := DirSlots(x.g, Chain0(x)), DirSlots(x.g, Chain0(x) + [x.c]);
    GrownSlots(x.g, Chain0(x), x.c);
    var list := AfterDots(all);
    var n := |AfterDots(old')|;
    assert list[n] == all[|old'|];
    forall j | 0 <= j < n
      ensures Classify(EntryAt(Installed(x), list[j])) != EndMark
    {
      assert list[j] == all[..|old'|][j + 2] == old'[j + 2];
      OldEntryKept(x, j + 2);
    }
    ZeroedSlot(x, list[n]);
    if n + 1 < |list| {
      assert list[n + 1] == all[|old'| + 1];
      ZeroedSlot(x, list[n + 1]);
    }
  }

  lemma OldEntryKept(x: Extend, i: nat)
    requires Staged(x) && i < |DirSlots(x.g, Chain0(x))|
    ensures Classify(EntryAt(Installed(x), DirSlots(x.g, Chain0(x))[i])) != EndMark
  {
    hide Live, NodeAt, DirSlots, RootSlots, Chain, Apply, DiskTable, TableBatch, Exclusive, Installed, IsBatch, Next;
    StagedBasics(x);
    DataPhase(x);
    TablePhase(x);
    NodesKeys(x.g, x.d, x.fat, x.depth);
    NodeChain(x.g, x.d, x.fat, x.dir);
    DirSlotsInChain(x.g, Chain0(x), i);
  }

  lemma ZeroedSlot(x: Extend, s: Slot)
    requires Staged(x) && s.sector.Data? && s.sector.cluster == x.c && s.sector.index < x.g.perCluster
    ensures Classify(EntryAt(Installed(x), s)) == EndMark
  {
    hide Full, DiskTable, Apply, Installed, Hung, IsBatch;
    StagedBasics(x);
    TablePhase(x);
  }

  /** The installed volume with the entry written into the new cluster. */
  ghost function Finished(x: Extend): Disk
    requires IsTable(x.g, x.fat) && IsTable(x.g, x.fat1)
  {
    Apply(Installed(x), EntryBatch(Installed(x), NewSlot(x), x.entry))
  }

  /** The only batch left is the entry's own. */
  lemma PublicationStages(x: Extend)
    requires Staged(x)
    ensures var m := Publication(x);
      && Located(m)
      && Batch(m, 0) == Batch(m, 1) == Batch(m, 2) == Batch(m, 3) == Batch(m, 5) == Batch(m, 6) == []
      && Stage(m, 3) == Stage(m, 4) == Installed(x) && Batch(m, 4) == EntryBatch(Installed(x), NewSlot(x), x.entry)
      && Stage(m, 5) == Stage(m, BATCHES) == Finished(x)
  {
    hide Nodes, DiskTable, Installed, DirSlots, Classify, EntryAt, TableBatch, Stage, Batch, Staged, Located, Apply,
         EntryBatch;
    StagedBasics(x);
    NewSlotFirst(x);
    var m := Publication(x);
    SameTablesNoBatch(x.g, x.fat1, 0);
    SameTablesNoBatch(x.g, x.fat1, 1);
    BatchKinds(m);
    ClearBatch(m);
    FirstStage(m);
    StageStep(m, 0);
    StageStep(m, 1);
    StageStep(m, 2);
    StageStep(m, 3);
    StageStep(m, 4);
    StageStep(m, 5);
    StageStep(m, 6);
    ApplyNothing(Installed(x));
    ApplyNothing(Stage(m, 5));
  }

  /** A leaf on fresh clusters may be published. */
  lemma PublicationCommits(x: Extend)
    requires Staged(x) && Classify(x.entry) == Used
    requires Leaf(x.g, Finished(x), x.fat1, NewSlot(x), First(Tree0(x)[x.dir].entry))
    requires forall c :: c in NodeAt(x.g, Finished(x), x.fat1, NewSlot(x)).value.clusters ==>
      IsFree(x.g, x.fat, c) && c != x.c
    ensures var m := Publication(x); WellFormed(m) && Before(m) == Grown(x)
    ensures After(Publication(x)) == Grown(x)[NewSlot(x) := NodeAt(x.g, Finished(x), x.fat1, NewSlot(x)).value]
  {
    hide Nodes, DiskTable, Installed, DirSlots, Classify, EntryAt, TableBatch, Stage, Batch, Staged, Apply, EntryBatch,
         Leaf, NodeAt, Finished, ClearsNext, Exclusive, Next;
    StagedBasics(x);
    NewSlotFirst(x);
    InstalledHealthy(x);
    PublicationStages(x);
    var m := Publication(x);
    LeafIsNode(x.g, Finished(x), x.fat1, NewSlot(x), First(Tree0(x)[x.dir].entry));
    var ch := NodeAt(x.g, Finished(x), x.fat1, NewSlot(x)).value.clusters;
    forall n, c | n in Grown(x) && c in ch
      ensures c !in Grown(x)[n].clusters
    {
      FreeInGrown(x, n, c);
    }
  }

  lemma LeafIsNode(g: Geometry, d: Disk, fat: seq<byte>, s: Slot, self: nat)
    requires g.perCluster > 0 && IsTable(g, fat) && Leaf(g, d, fat, s, self)
    ensures NodeAt(g, d, fat, s).Some?
  {
  }

  lemma FreeInGrown(x: Extend, n: Slot, c: nat)
    requires Staged(x) && n in Grown(x) && IsFree(x.g, x.fat, c) && c != x.c
    ensures c !in Grown(x)[n].clusters
  {
    hide Live, NodeAt, DirSlots, RootSlots, EntryAt, Chain, Apply, DiskTable, Hung, Exclusive, IsBatch;
    StagedBasics(x);
    NodesKeys(x.g, x.d, x.fat, x.depth);
    NodeChain(x.g, x.d, x.fat, n);
  }

  // ----- What is published -----------------------------------------------------------------

  lemma PublishedSectors(x: Extend)
    requires Staged(x)
    ensures EntryAt(Finished(x), NewSlot(x)) == x.entry
    ensures forall c: nat, i :: c != x.c ==> At(Finished(x), Data(c, i)) == At(Apply(x.d, x.data), Data(c, i))
  {
    hide Full, DiskTable, Apply, Installed, Hung, IsBatch, EntryAt, EntryBatch, TableBatch, SetEntry;
    StagedBasics(x);
    TablePhase(x);
    EntryBatchApplied(Installed(x), NewSlot(x), x.entry);
    OtherEntries(Installed(x), Finished(x), NewSlot(x), x.entry, NewSlot(x));
  }

  /** The published file reads back what was staged. */
  lemma ExtendedFile(x: Extend, ch: seq<nat>, content: seq<byte>)
    requires Staged(x) && Classify(x.entry) == Used && !DirectoryBit(x.entry) && Size(x.entry) == |content|
    requires First(x.entry) == (if ch == [] then 0 else ch[0]) && |ch| == Needed(x.g, |content|)
    requires ch != [] ==> Chain(x.g, x.fat1, ch[0]) == Some(ch)
    requires forall c :: c in ch ==> c != x.c
    requires Content(Apply(x.d, x.data), ChainSectors(x.g, ch), |content|) == content
    ensures NodeAt(x.g, Finished(x), x.fat1, NewSlot(x)) == Some(FileNode(x.entry, ch, content))
  {
    hide Full, DiskTable, Apply, Installed, Hung, IsBatch, EntryAt, Content, ChainSectors, Chain, Finished, Needed,
         Staged;
    StagedBasics(x);
    PublishedSectors(x);
    NeededExactly(x.g, |content|, 0);
    SameContent(x.g, Apply(x.d, x.data), Finished(x), ch, |content|);
  }

  /** The published directory holds its two dot entries and nothing else. */
  lemma ExtendedDirectory(x: Extend, k: nat)
    requires Staged(x) && Classify(x.entry) == Used && DirectoryBit(x.entry) && Size(x.entry) == 0
    requires First(x.entry) == k
    requires Chain(x.g, x.fat1, k) == Some([k]) && k != x.c
    requires At(Apply(x.d, x.data), Data(k, 0)) == DirSector(k, First(Tree0(x)[x.dir].entry))
    ensures NodeAt(x.g, Finished(x), x.fat1, NewSlot(x)) == Some(DirNode(x.entry, [k]))
    ensures Leaf(x.g, Finished(x), x.fat1, NewSlot(x), First(Tree0(x)[x.dir].entry))
    ensures At(Finished(x), Data(k, 0)) == DirSector(k, First(Tree0(x)[x.dir].entry))
  {
    hide DiskTable, Apply, Installed, Hung, IsBatch, EntryAt, ChainSectors, DirSlots, Chain, Finished, Nodes, NewDot,
         DirSector, Staged;
    StagedBasics(x);
    PublishedSectors(x);
    OneCluster(x.g, k);
    var self := First(Tree0(x)[x.dir].entry);
    DirSectorEntries(Finished(x), k, k, self);
    var slots := DirSlots(x.g, [k]);
    assert AfterDots(slots)[0] == slots[2];
    FirstIsEnd(Finished(x), AfterDots(slots));
  }
}
