/** Creating and removing directory entries: mkdir and remove. */
module Operations {
  import opened Common
  import opened Disk
  import opened Errors
  import opened Fat
  import opened Layout
  import opened Tree
  import opened View
  import opened Commit
  import opened Crash
  import opened FatName
  import opened Mutations
  import opened Search
  import opened Volume
  import Entries
  import Budget

  function ClusterHead(self: nat, parent: nat): Sector
    requires self < 0x1_0000 && parent < 0x1_0000
  {
    if self != 0 then DirSector(self, parent) else Zeros(SECTOR)
  }

  lemma NextEvent(d: Disk, before: seq<Event>, all: seq<Event>, i: nat)
    requires i < |all| && all[i].Write?
    ensures Apply(d, all[..i + 1]) == Apply(d, all[..i])[all[i].addr := all[i].data]
    ensures (before + all[..i]) + [all[i]] == before + all[..i + 1] <= before + all
  {
    assert all[..i + 1] == all[..i] + [all[i]];
    assert all[..i + 1][..i] == all[..i];
    assert before + all == before + all[..i + 1] + all[i + 1..];
  }

  /** Zero one cluster, with dot entries in its first sector for a new directory. */
  method ZeroCluster(v: FatVolume, cluster: nat, self: nat, parent: nat) returns (error: FsError)
    requires v.Mounted() && self < 0x1_0000 && parent < 0x1_0000
    modifies v`cache, v`disk, v`trace, v`started
    ensures v.Steady(old(v.started), old(v.disk), old(v.trace))
    ensures v.Mounted() && error in {Ok, IoError}
    ensures Issued(old(v.trace), v.trace, ClusterWrites(v.g, cluster, ClusterHead(self, parent)), error)
    ensures error == Ok ==>
      v.started && v.disk == Apply(old(v.disk), ClusterWrites(v.g, cluster, ClusterHead(self, parent)))
  {
    hide Apply, DirSector, ClusterHead;
    ghost var all := ClusterWrites(v.g, cluster, ClusterHead(self, parent));
    ApplyNothing(v.disk);
    var data := ClusterHead(self, parent);
    for i := 0 to v.g.perCluster
      invariant v.Mounted() && v.trace == old(v.trace) + all[..i] && v.disk == Apply(old(v.disk), all[..i])
      invariant i > 0 ==> v.started && data == Zeros(SECTOR)
      invariant i == 0 ==> v.started == old(v.started) && data == ClusterHead(self, parent)
    {
      NextEvent(old(v.disk), old(v.trace), all, i);
      error := v.WriteSector(Data(cluster, i), data);
      if error != Ok { return; }
      data := Zeros(SECTOR);
    }
    assert all[..v.g.perCluster] == all;
    error := Ok;
  }

  // ----- Removing -------------------------------------------------------------------------

  /** What the search established for an existing entry. */
  ghost predicate CanRemove(v: FatVolume, t: Target, place: Place)
    reads v
  {
    && v.Healthy() && PlaceOk(v.g, v.disk, v.Tree(), place) && Listing(v.g, v.Tree(), place)[place.index] == t.slot
    && t.found && !t.end && t.slot in v.Tree() && t.entry == EntryAt(v.disk, t.slot)
    && t.first == First(t.entry) && t.length == |v.Tree()[t.slot].clusters| && t.directory == v.Tree()[t.slot].DirNode?
  }

  ghost function RemovalOf(v: FatVolume, t: Target, place: Place): Mutation
    requires v.Healthy() && t.slot in v.Tree() && forall c :: c in v.Tree()[t.slot].clusters ==> ValidCluster(v.g, c)
    reads v
  {
    Mutation(v.g, v.disk, v.fat, v.depth, place, [], v.fat, Erased(t.entry),
             Release(v.g, v.fat, v.Tree()[t.slot].clusters))
  }

  /** Only deleted entries before the end: nothing is live in the directory. */
  lemma {:induction false} DeletedOnly(d: Disk, list: seq<Slot>, n: nat)
    requires n <= |list| && (forall i :: 0 <= i < n ==> EntryAt(d, list[i])[0] == DELETED)
    requires n == |list| || EntryAt(d, list[n])[0] == 0
    ensures NoneUsed(d, list)
    decreases |list|
  {
    hide EntryAt;
    if n > 0 {
      assert EntryAt(d, list[0])[0] == DELETED;
      assert forall i :: 0 <= i < n - 1 ==> list[1..][i] == list[i + 1];
      DeletedOnly(d, list[1..], n - 1);
    }
  }

  /** A slot before the end that is not deleted. */
  ghost predicate Occupied(d: Disk, list: seq<Slot>, i: nat) {
    Reached(d, list, i) && EntryAt(d, list[i])[0] != DELETED && Classify(EntryAt(d, list[i])) != EndMark
  }

  lemma OccupiedAt(d: Disk, list: seq<Slot>, n: nat)
    requires n < |list| && (forall i :: 0 <= i < n ==> EntryAt(d, list[i])[0] == DELETED)
    requires EntryAt(d, list[n])[0] != DELETED && EntryAt(d, list[n])[0] != 0
    ensures Occupied(d, list, n)
  {
  }

  /** A directory is empty when only deleted entries precede its end. */
  method CheckEmpty(v: FatVolume, t: Target) returns (error: FsError)
    requires v.Healthy() && t.slot in v.Tree() && v.Tree()[t.slot].DirNode?
    requires t.first == First(v.Tree()[t.slot].entry) && t.length == |v.Tree()[t.slot].clusters|
    modifies v`cache
    ensures v.Healthy() && error in {Ok, IoError, NotEmpty}
    ensures error == Ok ==> NoneUsed(v.disk, AfterDots(DirSlots(v.g, v.Tree()[t.slot].clusters)))
    // A directory with a live entry is never taken for empty, nor an all-deleted one for full.
    ensures error == NotEmpty ==>
      exists i: nat :: Occupied(v.disk, AfterDots(DirSlots(v.g, v.Tree()[t.slot].clusters)), i)
  {
    hide Nodes, DirSlots, RootSlots, Audited, DiskTable, EntryAt, Classify, NoneUsed, Occupied, SlotCount, Chain;
    v.HealthyBasics();
    var dir := SubDir(t.slot, t.first, t.length);
    ghost var nodes := v.Tree();
    ghost var list := AfterDots(DirSlots(v.g, nodes[t.slot].clusters));
    SlotCountIs(v.g, nodes, dir);
    var count := SlotCount(v.g, dir);
    v.DirChain(t.slot);
    DirHasDots(v.g, v.fat, t.first);
    var i := 2;
    while i < count
      invariant 2 <= i <= count && v.Healthy() && v.Tree() == nodes && |list| == count - 2
      invariant forall j :: 0 <= j < i - 2 ==> EntryAt(v.disk, list[j])[0] == DELETED
    {
      var s := v.SlotAt(dir, i);
      assert s == list[i - 2];
      var e;
      error, e := v.EntryRead(s);
      if error != Ok { return; }
      if e[0] == 0 {
        DeletedOnly(v.disk, list, i - 2);
        return;
      }
      if e[0] != DELETED {
        OccupiedAt(v.disk, list, i - 2);
        assert v.Tree() == nodes;
        ghost var at: nat := i - 2;
        assert Occupied(v.disk, AfterDots(DirSlots(v.g, v.Tree()[t.slot].clusters)), at);
        return NotEmpty;
      }
      i := i + 1;
    }
    DeletedOnly(v.disk, list, count - 2);
    error := Ok;
  }

  lemma DirHasDots(g: Geometry, fat: seq<byte>, first: nat)
    requires g.perCluster > 0 && IsTable(g, fat) && Chain(g, fat, first).Some?
    ensures |DirSlots(g, Chain(g, fat, first).value)| >= 2
  {
    ChainIsChain(g, fat, first);
    var ch := Chain(g, fat, first).value;
    ChainSectorsLength(g, ch);
    MulMonotone(1, |ch|, g.perCluster);
  }

  lemma ErasedIsSkipped(e: Entry)
    ensures Classify(Erased(e)) == Skipped
  {
  }

  lemma RemovalIsOne(v: FatVolume, t: Target, place: Place)
    requires CanRemove(v, t, place)
    requires t.directory ==> NoneUsed(v.disk, AfterDots(DirSlots(v.g, v.Tree()[t.slot].clusters)))
    ensures forall c :: c in v.Tree()[t.slot].clusters ==> ValidCluster(v.g, c)
    ensures var m := RemovalOf(v, t, place);
      && WellFormed(m) && Crash.Target(m) == t.slot && Before(m) == v.Tree() && After(m) == v.Tree() - {t.slot}
      && DepthAfter(m) == v.depth
  {
    hide Nodes, DiskTable, Audited, Classify, EntryAt, DirSlots, RootSlots, Exclusive, Release, Reached, NoneUsed,
         DotsRight, NodeAt, Erased;
    v.HealthyBasics();
    v.NodeIs(t.slot);
    NodeChain(v.g, v.disk, v.fat, t.slot);
    PlaceChecked(v.g, v.disk, v.fat, v.depth, place);
    ErasedIsSkipped(t.entry);
    ReleaseFrees(v.g, v.fat, v.Tree()[t.slot].clusters);
    var m := RemovalOf(v, t, place);
    RemovalCommits(m);
  }

  /** Erase the entry, flush, then release the chain in both tables. */
  method Remove(v: FatVolume, t: Target, dir: Dir, pinned: bool, ghost place: Place) returns (error: FsError)
    requires t.found ==> CanRemove(v, t, place)
    requires v.Healthy() && !v.started
    modifies v`cache, v`disk, v`trace, v`started, v`fat, v`faulted
    ensures v.Mounted() && old(v.trace) <= v.trace
    ensures !t.found ==> error == NotFound
    ensures t.found && pinned ==> error == Busy
    ensures error == Ok ==> t.found && !pinned && !ReadOnlyBit(t.entry) && !t.longName
    ensures error == Ok ==> v.Healthy() && v.Tree() == old(v.Tree()) - {t.slot} && v.Load() <= old(v.Load())
    ensures error == Ok && t.directory ==>
      NoneUsed(old(v.disk), AfterDots(DirSlots(v.g, old(v.Tree())[t.slot].clusters)))
    ensures error != Ok && !v.faulted ==> v.Healthy() && v.disk == old(v.disk) && v.Tree() == old(v.Tree())
    ensures v.Synced(old(v.disk), old(v.trace))
    ensures AtomicRun(v.g, old(v.disk), v.trace[|old(v.trace)|..], v.depth, old(v.Tree()), old(v.Tree()) - {t.slot})
  {
    hide Nodes, DiskTable, Audited, Classify, EntryAt, DirSlots, RootSlots, Exclusive, Release, Reached, Located, Stage,
         Batch, Apply, AtomicRun, WellFormed, CrashState, Plan, NoneUsed, Erased, Issued, v.Synced, Entries.Entries;
    v.HealthyBasics();
    v.NothingDone(v.Tree() - {t.slot});
    v.QuietIsSynced(v.disk, v.trace);
    assert v.trace[|v.trace|..] == [];
    if !t.found { return NotFound; }
    if pinned { return Busy; }
    if ReadOnlyBit(t.entry) { return Access; }
    if t.longName { return Unsupported; }
    if t.directory {
      v.NodeIs(t.slot);
      error := CheckEmpty(v, t);
      assert CanRemove(v, t, place);
      if error != Ok { return; }
    }
    var noMemory: bool := *;
    if noMemory { return NoMemory; }
    RemovalIsOne(v, t, place);
    ghost var m := RemovalOf(v, t, place);
    error := RemoveEntry(v, t, dir, place, m);
    Basics(m);
    IssuedRun(old(v.trace), v.trace, Plan(m), error);
    ghost var run := v.trace[|old(v.trace)|..];
    PrefixAtomic(m, run);
    if error == Ok {
      v.Performed(m);
      RemovalLoad(v, m);
    }
    v.MutationSynced(m, old(v.trace), error);
  }

  /** A removal adds no entry. */
  lemma RemovalLoad(v: FatVolume, m: Mutation)
    requires WellFormed(m) && v.Healthy() && v.Tree() == After(m) && v.g == m.g && v.disk == Stage(m, BATCHES)
    requires Crash.Target(m) in Before(m) && Crash.Target(m) !in After(m)
    ensures v.Load() <= Entries.Entries(m.g, m.d, Before(m))
  {
    hide WellFormed, Stage, Batch, Nodes, DiskTable, After, Entries.Entries, Classify, EntryAt, Listing, Before;
    v.LoadAfter(m);
    v.UsedTarget(m);
  }

  lemma IssuedRun(before: seq<Event>, after: seq<Event>, plan: seq<Event>, error: FsError)
    requires Issued(before, after, plan, error)
    ensures before <= after && after[|before|..] <= plan
    ensures error == Ok ==> after[|before|..] == plan
  {
  }

  method RemoveEntry(v: FatVolume, t: Target, dir: Dir, ghost place: Place, ghost m: Mutation) returns (error: FsError)
    requires CanRemove(v, t, place) && !v.started && forall c :: c in v.Tree()[t.slot].clusters ==> ValidCluster(v.g, c)
    requires m == RemovalOf(v, t, place) && WellFormed(m)
    modifies v`cache, v`disk, v`trace, v`started, v`fat, v`faulted
    ensures v.Mounted() && Issued(old(v.trace), v.trace, Plan(m), error)
    ensures error == Ok ==> !v.faulted && v.disk == Stage(m, BATCHES) && v.fat == m.fat2
    ensures error != Ok && !v.faulted ==> v.disk == old(v.disk) && v.fat == old(v.fat) && Quiet(old(v.trace), v.trace)
  {
    hide Nodes, DiskTable, Audited, Classify, EntryAt, DirSlots, RootSlots, Exclusive, Release, Reached, Located, Stage,
         Batch, Apply, WellFormed, Plan, NoneUsed, Erased, Chain, TableBatch, Issued;
    Basics(m);
    NoTablePhase(m);
    PlanPhases(m);
    ghost var och := v.Tree()[t.slot].clusters;
    LiveChain(v, t.slot);
    v.NodeIs(t.slot);
    PlaceChecked(v.g, v.disk, v.fat, v.depth, place);
    var committed;
    error, committed := v.PublishAndRelease(t, dir, Erased(t.entry), v.fat, och, m);
    var first: seq<Event> := [];
    assert first + (first + first) + (Batch(m, 3) + Batch(m, 4)) + (Batch(m, 5) + Batch(m, 6)) ==
           (Batch(m, 3) + Batch(m, 4)) + (Batch(m, 5) + Batch(m, 6));
    v.Finish(error);
  }

  lemma LiveChain(v: FatVolume, s: Slot)
    requires v.Healthy() && s in v.Tree()
    ensures v.Tree()[s].clusters != [] ==> Chain(v.g, v.fat, First(v.Tree()[s].entry)) == Some(v.Tree()[s].clusters)
  {
    hide Nodes, DiskTable, Audited, Chain, NodeAt;
    v.HealthyBasics();
    v.NodeIs(s);
    NodeChain(v.g, v.disk, v.fat, s);
  }

  /** With no data and no new table, publication starts from the volume as it is. */
  lemma NoTablePhase(m: Mutation)
    requires Located(m) && m.data == [] && m.fat1 == m.fat
    ensures Batch(m, 0) == Batch(m, 1) == Batch(m, 2) == [] && Stage(m, 3) == m.d
  {
    hide *;
    LocatedTables(m);
    BatchKinds(m);
    SameTablesNoBatch(m.g, m.fat, 0);
    SameTablesNoBatch(m.g, m.fat, 1);
    FirstStage(m);
    StageStep(m, 0);
    StageStep(m, 1);
    StageStep(m, 2);
    ApplyNothing(m.d);
  }

  // ----- Making a directory in a free slot ----------------------------------------------------

  /** A free slot found by searching the whole of `dir`. */
  ghost predicate CanCreate(v: FatVolume, t: Target, dir: Dir)
    reads v
  {
    && v.Healthy() && IsDir(v.Tree(), dir) && !t.found && !t.grow
    && var all := AllSlots(v.g, v.Tree(), dir);
       && Skip(dir) <= t.cursor < |all| && NoEndBefore(v.disk, all, t.cursor) && t.slot == all[t.cursor]
       && FreeSlot(v.disk, t.slot, t.end)
  }

  ghost function DirectoryOf(v: FatVolume, t: Target, dir: Dir, e: Entry, fat1: seq<byte>, c: nat): Mutation
    requires Skip(dir) <= t.cursor && c < 0x1_0000 && FirstOf(dir) < 0x1_0000
    reads v
  {
    Mutation(v.g, v.disk, v.fat, v.depth, PlaceAt(dir, t.cursor),
             ClusterWrites(v.g, c, DirSector(c, FirstOf(dir))) + [Flush], fat1, e, fat1)
  }

  ghost predicate DirectoryEntry(e: Entry, c: nat) {
    Classify(e) == Used && DirectoryBit(e) && Size(e) == 0 && First(e) == c
  }

  lemma DirectoryIsOne(v: FatVolume, t: Target, dir: Dir, e: Entry, fat1: seq<byte>, c: nat)
    requires CanCreate(v, t, dir) && Allocated(v.g, v.fat, [c], fat1) && DirectoryEntry(e, c)
    ensures 0 < c < 0x1_0000 && FirstOf(dir) < 0x1_0000 && IsTable(v.g, fat1)
    ensures var m := DirectoryOf(v, t, dir, e, fat1, c);
      && WellFormed(m) && Crash.Target(m) == t.slot && Before(m) == v.Tree() && DepthAfter(m) == v.depth + 1
      && After(m) == v.Tree()[t.slot := DirNode(e, [c])]
      && (t.end <==> Classify(EntryAt(v.disk, t.slot)) == EndMark)
      && Budget.Burden(m.g, Budget.Final(m), After(m), t.slot) == Budget.NEW_DIRECTORY
  {
    hide Nodes, DiskTable, Audited, Classify, EntryAt, DirSlots, RootSlots, Exclusive, Allocated, Reached, DirSector,
         ClusterWrites;
    v.HealthyBasics();
    AllocatedMembers(v.g, v.fat, [c], fat1);
    assert c in [c];
    AllocatedTable(v.g, v.fat, [c], fat1);
    CursorIsPlace(v.g, v.disk, v.Tree(), dir, t.cursor);
    FreeSlotKind(v.disk, t.slot, t.end);
    var m := DirectoryOf(v, t, dir, e, fat1, c);
    NewDirectoryCommits(m, c);
    Budget.NewDirectoryBurden(m, c);
  }

  lemma NoReleasePhase(m: Mutation)
    requires Located(m) && m.fat2 == m.fat1
    ensures Batch(m, 5) == Batch(m, 6) == [] && Stage(m, BATCHES) == Stage(m, 5)
  {
    hide Located, Stage, Batch, TableBatch, Apply;
    LocatedTables(m);
    BatchKinds(m);
    SameTablesNoBatch(m.g, m.fat1, 0);
    SameTablesNoBatch(m.g, m.fat1, 1);
    StageStep(m, 5);
    StageStep(m, 6);
    ApplyNothing(Stage(m, 5));
  }

  /** The first phases: the directory's cluster, flush, both tables. */
  method StageDirectory(v: FatVolume, c: nat, parent: nat, fat1: seq<byte>, ghost m: Mutation) returns (error: FsError)
    requires v.Mounted() && 0 < c < 0x1_0000 && parent < 0x1_0000 && IsTable(v.g, fat1) && Located(m)
    requires m.g == v.g && m.d == v.disk && m.fat == v.fat && m.fat1 == fat1
    requires m.data == ClusterWrites(v.g, c, DirSector(c, parent)) + [Flush]
    modifies v`cache, v`disk, v`trace, v`started, v`fat
    ensures v.Steady(old(v.started), old(v.disk), old(v.trace))
    ensures v.Mounted() && error in {Ok, IoError}
    ensures Issued(old(v.trace), v.trace, Batch(m, 0) + (Batch(m, 1) + Batch(m, 2)), error)
    ensures error == Ok ==> v.started && v.disk == Stage(m, 3) && v.fat == fat1
    ensures error != Ok ==> v.fat == old(v.fat)
  {
    hide Located, Stage, Batch, Apply, TableBatch, DirSector, ClusterWrites, Issued, Quiet;
    BatchKinds(m);
    FirstStage(m);
    StageStep(m, 0);
    StageStep(m, 1);
    StageStep(m, 2);
    ghost var writes, tables := ClusterWrites(v.g, c, DirSector(c, parent)), Batch(m, 1) + Batch(m, 2);
    error := ZeroAndFlush(v, c, c, parent);
    if error != Ok {
      IssuedPart(old(v.trace), v.trace, Batch(m, 0), tables, error);
      return;
    }
    ghost var t1 := v.trace;
    error := v.PersistTable(fat1);
    IssuedThen(old(v.trace), t1, v.trace, Batch(m, 0), tables, error);
  }

  method ZeroAndFlush(v: FatVolume, cluster: nat, self: nat, parent: nat) returns (error: FsError)
    requires v.Mounted() && self < 0x1_0000 && parent < 0x1_0000
    modifies v`cache, v`disk, v`trace, v`started
    ensures v.Steady(old(v.started), old(v.disk), old(v.trace))
    ensures v.Mounted() && error in {Ok, IoError}
    ensures Issued(old(v.trace), v.trace, ClusterWrites(v.g, cluster, ClusterHead(self, parent)) + [Flush], error)
    ensures error == Ok ==>
      v.started && v.disk == Apply(old(v.disk), ClusterWrites(v.g, cluster, ClusterHead(self, parent)) + [Flush])
  {
    hide Apply, ClusterHead, ClusterWrites;
    ghost var writes := ClusterWrites(v.g, cluster, ClusterHead(self, parent));
    error := ZeroCluster(v, cluster, self, parent);
    if error != Ok {
      IssuedPart(old(v.trace), v.trace, writes, [Flush], error);
      return;
    }
    ghost var t1 := v.trace;
    error := v.FlushDevice();
    IssuedThen(old(v.trace), t1, v.trace, writes, [Flush], error);
    ApplyFlushed(old(v.disk), writes);
  }

  /** Stage the new cluster, install both tables, publish the entry. */
  method MakeHere(v: FatVolume, t: Target, dir: Dir, e: Entry, fat1: seq<byte>, c: nat, ghost m: Mutation)
    returns (error: FsError)
    requires CanCreate(v, t, dir) && !v.started && Allocated(v.g, v.fat, [c], fat1) && 0 < c < 0x1_0000
    requires FirstOf(dir) < 0x1_0000
    requires IsTable(v.g, fat1) && m == DirectoryOf(v, t, dir, e, fat1, c) && WellFormed(m)
    requires Crash.Target(m) == t.slot && Before(m) == v.Tree()
    requires (t.end <==> Classify(EntryAt(v.disk, t.slot)) == EndMark)
    modifies v`cache, v`disk, v`trace, v`started, v`fat, v`faulted
    ensures v.Mounted() && Issued(old(v.trace), v.trace, Plan(m), error)
    ensures error == Ok ==> !v.faulted && v.disk == Stage(m, BATCHES) && v.fat == m.fat2
    ensures error != Ok && !v.faulted ==> v.disk == old(v.disk) && v.fat == old(v.fat) && Quiet(old(v.trace), v.trace)
  {
    hide Nodes, DiskTable, Audited, Classify, EntryAt, DirSlots, RootSlots, Exclusive, Located, Stage, Batch, Apply,
         WellFormed, Plan, TableBatch, Issued, Quiet, DirSector, ClusterWrites, ClusterHead, Allocated, AllSlots,
         NoEndBefore;
    Basics(m);
    PlanPhases(m);
    NoReleasePhase(m);
    ghost var begun, rest := Batch(m, 0) + (Batch(m, 1) + Batch(m, 2)), Batch(m, 3) + Batch(m, 4);
    var none: seq<Event> := [];
    assert Plan(m) == begun + rest by { assert begun + rest + (none + none) == begun + rest; }
    error := StageDirectory(v, c, FirstOf(dir), fat1, m);
    if error != Ok {
      IssuedPart(old(v.trace), v.trace, begun, rest, error);
      v.Finish(error);
      return;
    }
    ghost var t1 := v.trace;
    error := v.Publish(t, dir, e, m);
    IssuedThen(old(v.trace), t1, v.trace, begun, rest, error);
    v.Finish(error);
  }
}
