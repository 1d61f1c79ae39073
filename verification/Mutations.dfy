/** The writer's mutations as instances of the ordered commit: replacing a file,
    making a directory, removing a leaf. */
module Mutations {
  import opened Common
  import opened Disk
  import opened Fat
  import opened Layout
  import opened Tree
  import opened View
  import opened Commit
  import opened Crash
  import opened FileData
  import opened FatName

  /** Common to all: a healthy volume and a place to edit. */
  ghost predicate Ready(m: Mutation) {
    && Located(m)
    && DiskTable(m.g, m.d, 0) == m.fat && DiskTable(m.g, m.d, 1) == m.fat
  }

  /** The clusters the target holds before the edit. */
  ghost function OldClusters(m: Mutation): seq<nat>
    requires Located(m)
  {
    if Target(m) in Before(m) then Before(m)[Target(m)].clusters else []
  }

  ghost predicate FreeSlotOr(m: Mutation, used: bool)
    requires Located(m)
  {
    Classify(EntryAt(m.d, Target(m))) in {Skipped, EndMark} || used
  }

  // ----- Staged sectors survive until publication -----------------------------------------------

  lemma TableBatchWrites(g: Geometry, fat: seq<byte>, fat': seq<byte>, copy: nat)
    requires IsTable(g, fat) && IsTable(g, fat')
    ensures forall i :: 0 <= i < |TableBatch(g, fat, fat', copy)| && TableBatch(g, fat, fat', copy)[i].Write? ==>
      TableBatch(g, fat, fat', copy)[i].addr.Table?
  {
    hide TableSector, ChangedSectors;
    ChangedSectorsAre(g, fat, fat', copy, g.fatSectors);
    var changed := ChangedSectors(g, fat, fat', copy, g.fatSectors);
    forall i | 0 <= i < |changed|
      ensures changed[i].Write? ==> changed[i].addr.Table?
    {
      assert changed[i] in changed;
    }
  }

  lemma BatchAvoids(m: Mutation, a: Addr, i: nat)
    requires Located(m) && 1 <= i <= 4
    requires a.Data? && a != Target(m).sector
    requires ClearsNext(m) ==> a != List(m)[m.place.index + 1].sector
    ensures forall k :: 0 <= k < |Batch(m, i)| && Batch(m, i)[k].Write? ==> Batch(m, i)[k].addr != a
  {
    hide TableBatch, Stage, Classify, Nodes, Exclusive;
    ClearBatch(m);
    if i <= 2 {
      BatchKinds(m);
      TableBatchWrites(m.g, m.fat, m.fat1, i - 1);
    }
  }

  /** After staging, only tables and the target's listing are written. */
  lemma {:induction false} StagedKept(m: Mutation, a: Addr, i: nat)
    requires Located(m) && 1 <= i <= 5
    requires a.Data? && a != Target(m).sector
    requires ClearsNext(m) ==> a != List(m)[m.place.index + 1].sector
    ensures At(Stage(m, i), a) == At(Stage(m, 1), a)
    decreases i
  {
    hide Located, Stage, Batch, ClearsNext, Target, List, Apply;
    if i > 1 {
      StagedKept(m, a, i - 1);
      StageStep(m, i - 1);
      BatchAvoids(m, a, i - 1);
      ApplyElsewhere(Stage(m, i - 1), Batch(m, i - 1), a);
    }
  }

  lemma LocatedTables(m: Mutation)
    requires Located(m)
    ensures m.g.Valid() && IsTable(m.g, m.fat) && IsTable(m.g, m.fat1) && IsTable(m.g, m.fat2)
    ensures Audited(m.g, m.d, m.fat, m.depth) && m.place.index < |List(m)|
  {
  }

  lemma Published(m: Mutation)
    requires Located(m)
    ensures EntryAt(Stage(m, 5), Target(m)) == m.entry
  {
    hide Stage, EntryAt, SetEntry, EntryBatch, EntryChanged;
    ClearBatch(m);
    StageStep(m, 4);
    EntryBatchApplied(Stage(m, 4), Target(m), m.entry);
    OtherEntries(Stage(m, 4), Stage(m, 5), Target(m), m.entry, Target(m));
  }

  /** Listing sectors are in use, so fresh clusters avoid them. */
  lemma ListInUse(m: Mutation, i: nat)
    requires Located(m) && i < |List(m)|
    ensures var a := List(m)[i].sector; a.Root? || (a.Data? && !IsFree(m.g, m.fat, a.cluster))
  {
    hide Live, NodeAt, DirSlots, RootSlots, Exclusive;
    NodesKeys(m.g, m.d, m.fat, m.depth);
    if m.place.InRoot? {
      RootSlotsInRoot(m.g, i);
    } else {
      var dir := Before(m)[m.place.dir];
      DirSlotsInChain(m.g, dir.clusters, i + 2);
      NodeChain(m.g, m.d, m.fat, m.place.dir);
    }
  }

  lemma FreshKept(m: Mutation, c: nat, i: nat)
    requires Located(m) && IsFree(m.g, m.fat, c)
    ensures At(Stage(m, 5), Data(c, i)) == At(Stage(m, 1), Data(c, i))
  {
    hide Stage, Classify;
    LocatedTables(m);
    ListInUse(m, m.place.index);
    if ClearsNext(m) { ListInUse(m, m.place.index + 1); }
    StagedKept(m, Data(c, i), 5);
  }

  lemma FirstBatch(m: Mutation)
    requires Located(m)
    ensures Stage(m, 1) == Apply(m.d, m.data)
  {
    FirstStage(m);
    StageStep(m, 0);
    BatchKinds(m);
  }

  // ----- Replacing, writing or resizing a file ----------------------------------------------------

  ghost predicate FileRewrite(m: Mutation, ch: seq<nat>, content: seq<byte>) {
    && Ready(m)
    && Allocated(m.g, m.fat, ch, m.fat1) && |ch| == Needed(m.g, |content|)
    && m.data == DataWrites(ChainSectors(m.g, ch), content) + [Flush]
    && Classify(m.entry) == Used && !DirectoryBit(m.entry) && Size(m.entry) == |content|
    && First(m.entry) == (if ch == [] then 0 else ch[0])
    && FreeSlotOr(m, Target(m) in Before(m) && Before(m)[Target(m)].FileNode?)
    && Freed(m.g, m.fat1, OldClusters(m), m.fat2)
  }

  lemma DataBatchShape(g: Geometry, fat: seq<byte>, ch: seq<nat>, content: seq<byte>)
    requires IsTable(g, fat) && forall c :: c in ch ==> IsFree(g, fat, c)
    ensures var batch := DataWrites(ChainSectors(g, ch), content) + [Flush];
      && IsBatch(batch) && Writes(batch) == DataWrites(ChainSectors(g, ch), content)
      && forall e :: e in Writes(batch) ==> e.Write? && e.addr.Data? && IsFree(g, fat, e.addr.cluster)
  {
    hide ChainSectors, IsFree;
    var writes := DataWrites(ChainSectors(g, ch), content);
    assert (writes + [Flush])[..|writes|] == writes;
    forall e | e in writes
      ensures e.Write? && e.addr.Data? && IsFree(g, fat, e.addr.cluster)
    {
      var i :| 0 <= i < |writes| && writes[i] == e;
      ChainSectorsOwned(g, ch, ChainSectors(g, ch)[i]);
    }
  }

  lemma ChainSectorsAreDistinct(g: Geometry, ch: seq<nat>)
    requires NoDuplicates(ch)
    ensures Distinct(ChainSectors(g, ch))
  {
    hide ChainSectors;
    forall i, j | 0 <= i < j < |ChainSectors(g, ch)|
      ensures ChainSectors(g, ch)[i] != ChainSectors(g, ch)[j]
    {
      ChainSectorsDistinct(g, ch, i, j);
    }
  }

  lemma AllocatedMembers(g: Geometry, fat: seq<byte>, ch: seq<nat>, fat': seq<byte>)
    requires IsTable(g, fat) && Allocated(g, fat, ch, fat')
    ensures NoDuplicates(ch) && forall c :: c in ch ==> IsFree(g, fat, c)
    ensures forall c :: ValidCluster(g, c) && !IsFree(g, fat, c) ==> Next(g, fat', c) == Next(g, fat, c)
  {
    forall c | ValidCluster(g, c) && !IsFree(g, fat, c)
      ensures Next(g, fat', c) == Next(g, fat, c)
    {
      NextUnchanged(g, fat, fat', ch, c);
    }
  }

  /** The staged bytes are the new file's content. */
  lemma RewriteNode(m: Mutation, ch: seq<nat>, content: seq<byte>)
    requires FileRewrite(m, ch, content)
    ensures NewNode(m) == Some(FileNode(m.entry, ch, content))
  {
    hide Stage, Batch, EntryAt, ChainSectors, DataWrites, Needed, Classify, Nodes, Freed, ClearsNext;
    LocatedTables(m);
    Published(m);
    AllocatedMembers(m.g, m.fat, ch, m.fat1);
    if ch == [] {
      NeededExactly(m.g, |content|, 0);
    } else {
      NeededExactly(m.g, |content|, 0);
      AllocatedIsChain(m.g, m.fat, ch, m.fat1);
      StagedContent(m, ch, content);
    }
  }

  lemma StagedContent(m: Mutation, ch: seq<nat>, content: seq<byte>)
    requires FileRewrite(m, ch, content)
    ensures Content(Stage(m, 5), ChainSectors(m.g, ch), |content|) == content
  {
    hide Stage, Batch, EntryAt, ChainSectors, DataWrites, Needed, Classify, Nodes, Freed, ClearsNext, Content, Apply;
    LocatedTables(m);
    AllocatedMembers(m.g, m.fat, ch, m.fat1);
    FirstBatch(m);
    var sectors := ChainSectors(m.g, ch);
    ApplyFlushed(m.d, DataWrites(sectors, content));
    ChainSectorsAreDistinct(m.g, ch);
    NeededFits(m.g, |content|, ch);
    WrittenIsRead(m.d, sectors, content);
    forall c, i | c in ch
      ensures At(Stage(m, 5), Data(c, i)) == At(Stage(m, 1), Data(c, i))
    {
      FreshKept(m, c, i);
    }
    SameContent(m.g, Stage(m, 1), Stage(m, 5), ch, |content|);
  }

  lemma ApplyFlushed(d: Disk, run: seq<Event>)
    ensures Apply(d, run + [Flush]) == Apply(d, run)
  {
    assert (run + [Flush])[..|run|] == run;
  }

  /** Freeing the old chain touches no cluster of the new view. */
  lemma ReleaseHarmless(m: Mutation, n: Slot, c: nat)
    requires Ready(m) && Freed(m.g, m.fat1, OldClusters(m), m.fat2)
    requires n in After(m) && c in After(m)[n].clusters && ValidCluster(m.g, c)
    requires NewNode(m).Some? && Classify(m.entry) == Used ==>
      forall c :: c in NewNode(m).value.clusters ==> IsFree(m.g, m.fat, c)
    ensures Next(m.g, m.fat2, c) == Next(m.g, m.fat1, c)
  {
    hide Stage, Batch, EntryAt, Classify, Live, NodeAt, NewNode;
    LocatedTables(m);
    NodesKeys(m.g, m.d, m.fat, m.depth);
    if c in OldClusters(m) {
      NodeChain(m.g, m.d, m.fat, Target(m));
    }
    NextUnchanged(m.g, m.fat1, m.fat2, OldClusters(m), c);
  }

  lemma TargetLive(m: Mutation)
    requires Located(m)
    ensures Target(m) in Before(m) <==> Classify(EntryAt(m.d, Target(m))) == Used
    ensures Target(m) in Before(m) ==> NodeAt(m.g, m.d, m.fat, Target(m)) == Some(Before(m)[Target(m)])
  {
    hide Live, NodeAt, Classify, EntryAt, DirSlots, RootSlots, Exclusive;
    NodesKeys(m.g, m.d, m.fat, m.depth);
    if Classify(EntryAt(m.d, Target(m))) == Used {
      if m.place.InRoot? {
        ReachedIsLive(m.g, m.d, m.fat, RootSlots(m.g), 0, m.depth, m.place.index);
      } else {
        LiveIsClosed(m.g, m.d, m.fat, RootSlots(m.g), 0, m.depth, m.place.dir, m.place.index);
      }
    }
  }

  /** A free cluster belongs to no node. */
  lemma FreeUnused(m: Mutation, n: Slot, c: nat)
    requires Located(m) && n in Before(m) && IsFree(m.g, m.fat, c)
    ensures c !in Before(m)[n].clusters
  {
    hide Live, Classify, EntryAt, NodeAt, Exclusive;
    NodesKeys(m.g, m.d, m.fat, m.depth);
    NodeChain(m.g, m.d, m.fat, n);
  }

  lemma FreshUnused(m: Mutation, ch: seq<nat>)
    requires Located(m) && forall c :: c in ch ==> IsFree(m.g, m.fat, c)
    ensures forall n, c :: n in Before(m) && c in ch ==> c !in Before(m)[n].clusters
  {
    hide Located, IsFree, Before;
    LocatedTables(m);
    forall n, c | n in Before(m) && c in ch
      ensures c !in Before(m)[n].clusters
    {
      FreeUnused(m, n, c);
    }
  }

  /** A rewrite meets every condition of the commit, and its outcome is the target
      holding the new contents. */
  lemma RewriteCommits(m: Mutation, ch: seq<nat>, content: seq<byte>)
    requires FileRewrite(m, ch, content)
    ensures WellFormed(m) && After(m) == Before(m)[Target(m) := FileNode(m.entry, ch, content)]
  {
    hide Stage, Batch, EntryAt, ChainSectors, DataWrites, Needed, Classify, Nodes, Allocated, Freed, NodeAt, ClearsNext,
         Next;
    LocatedTables(m);
    AllocatedMembers(m.g, m.fat, ch, m.fat1);
    DataBatchShape(m.g, m.fat, ch, content);
    RewriteNode(m, ch, content);
    FreshUnused(m, ch);
    TargetLive(m);
    forall n, c | n in After(m) && c in After(m)[n].clusters && ValidCluster(m.g, c)
      ensures Next(m.g, m.fat2, c) == Next(m.g, m.fat1, c)
    {
      ReleaseHarmless(m, n, c);
    }
  }

  // ----- Removing a file or an empty directory ------------------------------------------------------

  ghost predicate Removal(m: Mutation) {
    && Ready(m)
    && m.fat1 == m.fat && m.data == []
    && Classify(m.entry) == Skipped
    && Classify(EntryAt(m.d, Target(m))) == Used
    && Leaf(m.g, m.d, m.fat, Target(m), SelfOf(Before(m), m.place))
    && Freed(m.g, m.fat, OldClusters(m), m.fat2)
  }

  lemma RemovalCommits(m: Mutation)
    requires Removal(m)
    ensures WellFormed(m) && After(m) == Before(m) - {Target(m)}
  {
    hide Stage, Batch, EntryAt, Classify, Nodes, Freed, Leaf, NodeAt, ClearsNext, Next, NewNode;
    LocatedTables(m);
    TargetLive(m);
    forall n, c | n in After(m) && c in After(m)[n].clusters && ValidCluster(m.g, c)
      ensures Next(m.g, m.fat2, c) == Next(m.g, m.fat1, c)
    {
      ReleaseHarmless(m, n, c);
    }
  }

  // ----- Making a directory ---------------------------------------------------------------------------

  function DotName(parent: bool): (r: seq<byte>)
    ensures |r| == 11
  {
    [46, if parent then 46 else SPACE, SPACE, SPACE, SPACE, SPACE, SPACE, SPACE, SPACE, SPACE, SPACE]
  }

  /** The "." or ".." entry of a new directory. */
  function NewDot(parent: bool, cluster: nat): (e: Entry)
    requires cluster < 0x1_0000
    ensures DotEntry(e, parent, cluster)
  {
    var blank: Entry := DotName(parent) + [0x10] + Zeros(20);
    var e: Entry := Stamp(Put16(blank, 26, cluster));
    assert e[..12] == blank[..12];
    assert forall i :: 0 <= i < 11 ==> e[i] == DotName(parent)[i];
    e
  }

  /** First sector of a new directory: two dot entries, then the end mark. */
  function DirSector(self: nat, parent: nat): (r: Sector)
    requires self < 0x1_0000 && parent < 0x1_0000
  {
    NewDot(false, self) + NewDot(true, parent) + Zeros(SECTOR - 64)
  }

  /** Writes that initialise one directory cluster. */
  function ClusterWrites(g: Geometry, c: nat, head: Sector): (r: seq<Event>)
    ensures |r| == g.perCluster
  {
    seq(g.perCluster, i requires 0 <= i => Write(Data(c, i), if i == 0 then head else Zeros(SECTOR)))
  }

  ghost predicate NewDirectory(m: Mutation, c: nat) {
    && Ready(m)
    && Allocated(m.g, m.fat, [c], m.fat1) && m.fat2 == m.fat1
    && SelfOf(Before(m), m.place) < 0x1_0000 && c < 0x1_0000
    && m.data == ClusterWrites(m.g, c, DirSector(c, SelfOf(Before(m), m.place))) + [Flush]
    && Classify(m.entry) == Used && DirectoryBit(m.entry) && Size(m.entry) == 0 && First(m.entry) == c
    && FreeSlotOr(m, false)
  }

  lemma ClusterWritesApplied(d: Disk, g: Geometry, c: nat, head: Sector, i: nat)
    requires i < g.perCluster
    ensures At(Apply(d, ClusterWrites(g, c, head)), Data(c, i)) == if i == 0 then head else Zeros(SECTOR)
  {
    ApplyOnce(d, ClusterWrites(g, c, head), i);
  }

  lemma ClusterBatchShape(g: Geometry, fat: seq<byte>, c: nat, head: Sector)
    requires IsTable(g, fat) && IsFree(g, fat, c)
    ensures var batch := ClusterWrites(g, c, head) + [Flush];
      && IsBatch(batch) && Writes(batch) == ClusterWrites(g, c, head)
      && forall e :: e in Writes(batch) ==> e.Write? && e.addr.Data? && IsFree(g, fat, e.addr.cluster)
  {
    var writes := ClusterWrites(g, c, head);
    assert (writes + [Flush])[..|writes|] == writes;
  }

  lemma OneCluster(g: Geometry, c: nat)
    requires 1 <= g.perCluster <= CLUSTER_SECTOR_LIMIT
    ensures ChainSectors(g, [c]) == ClusterSectors(g, c)
    ensures 16 <= |DirSlots(g, [c])| <= DIRECTORY_ENTRY_LIMIT
    ensures forall i :: 0 <= i < 16 ==> DirSlots(g, [c])[i] == Slot(Data(c, 0), i)
  {
    assert [c][..0] == [];
    assert ChainSectors(g, [c]) == ChainSectors(g, [c][..0]) + ClusterSectors(g, c);
    forall i | 0 <= i < 16
      ensures DirSlots(g, [c])[i] == Slot(Data(c, 0), i)
    {
      assert i / ENTRIES_PER_SECTOR == 0 && i % ENTRIES_PER_SECTOR == i;
    }
  }

  lemma DirSectorEntries(d: Disk, c: nat, self: nat, parent: nat)
    requires self < 0x1_0000 && parent < 0x1_0000 && At(d, Data(c, 0)) == DirSector(self, parent)
    ensures EntryAt(d, Slot(Data(c, 0), 0)) == NewDot(false, self)
    ensures EntryAt(d, Slot(Data(c, 0), 1)) == NewDot(true, parent)
    ensures EntryAt(d, Slot(Data(c, 0), 2))[0] == 0
  {
    hide NewDot;
    var s := DirSector(self, parent);
    assert s[0..32] == NewDot(false, self) && s[32..64] == NewDot(true, parent) && s[64] == 0;
  }

  /** A directory just made holds its dot entries and nothing else. */
  lemma NewDirectoryLeaf(m: Mutation, c: nat)
    requires NewDirectory(m, c)
    ensures NewNode(m) == Some(DirNode(m.entry, [c]))
    ensures Leaf(m.g, Stage(m, 5), m.fat1, Target(m), SelfOf(Before(m), m.place))
    ensures At(Stage(m, 5), Data(c, 0)) == DirSector(c, SelfOf(Before(m), m.place))
  {
    hide Stage, Batch, EntryAt, ChainSectors, DirSlots, Classify, Nodes, ClearsNext, NewDot, Chain, ClusterWrites;
    LocatedTables(m);
    Published(m);
    AllocatedMembers(m.g, m.fat, [c], m.fat1);
    assert c in [c];
    AllocatedIsChain(m.g, m.fat, [c], m.fat1);
    OneCluster(m.g, c);
    var self := SelfOf(Before(m), m.place);
    var head := DirSector(c, self);
    FirstBatch(m);
    ApplyFlushed(m.d, ClusterWrites(m.g, c, head));
    ClusterWritesApplied(m.d, m.g, c, head, 0);
    FreshKept(m, c, 0);
    DirSectorEntries(Stage(m, 5), c, c, self);
    var slots := DirSlots(m.g, [c]);
    assert AfterDots(slots)[0] == slots[2];
    FirstIsEnd(Stage(m, 5), AfterDots(slots));
  }

  lemma FirstIsEnd(d: Disk, slots: seq<Slot>)
    requires slots != [] && EntryAt(d, slots[0])[0] == 0
    ensures NoneUsed(d, slots)
  {
  }

  lemma NewDirectoryCommits(m: Mutation, c: nat)
    requires NewDirectory(m, c)
    ensures WellFormed(m) && After(m) == Before(m)[Target(m) := DirNode(m.entry, [c])]
  {
    hide Stage, Batch, EntryAt, Classify, Nodes, Allocated, Leaf, NodeAt, ClearsNext, Next, NewDot, ClusterWrites,
         DirSector;
    LocatedTables(m);
    AllocatedMembers(m.g, m.fat, [c], m.fat1);
    assert c in [c];
    ClusterBatchShape(m.g, m.fat, c, DirSector(c, SelfOf(Before(m), m.place)));
    NewDirectoryLeaf(m, c);
    FreshUnused(m, [c]);
  }
}
