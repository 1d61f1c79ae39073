/** Creating a file or a directory in a subdirectory that has no free slot. */
module Enlarge {
  import opened Common
  import opened Disk
  import opened Errors
  import opened Fat
  import opened Layout
  import opened Tree
  import opened View
  import opened Commit
  import opened Crash
  import opened FileData
  import opened FatName
  import opened Mutations
  import opened Search
  import opened Extension
  import opened GrowthCrash
  import opened Volume
  import opened Operations
  import Entries
  import Budget
  import Path

  // ----- Tables -------------------------------------------------------------------------

  /** Linking a second allocation behind the directory leaves the first one intact. */
  lemma HungOn(g: Geometry, fat: seq<byte>, ch: seq<nat>, fatM: seq<byte>, c: nat, fatN: seq<byte>, dch: seq<nat>,
               first: nat)
    requires IsTable(g, fat) && Allocated(g, fat, ch, fatM) && Allocated(g, fatM, [c], fatN)
    requires Chain(g, fat, first) == Some(dch) && dch != []
    ensures ValidCluster(g, c) && ValidCluster(g, Last(dch)) && IsTable(g, fatN)
    ensures var fat1 := Link(g, fatN, Last(dch), c);
      Hung(g, fat, dch, c, fat1) && c !in ch && (ch != [] ==> Chain(g, fat1, ch[0]) == Some(ch))
  {
    hide Chain;
    assert c in [c] && [c][0] == c && Last(dch) in dch;
    ChainNotFree(g, fat, first, dch, Last(dch));
    AllocatedMembers(g, fat, ch, fatM);
    AllocatedMembers(g, fatM, [c], fatN);
    if ch != [] { AllocatedIsChain(g, fat, ch, fatM); }
    if c in ch { ChainNotFree(g, fatM, ch[0], ch, c); }
    NextUnchanged(g, fat, fatM, ch, c);
    var fat1 := Link(g, fatN, Last(dch), c);
    if ch != [] {
      forall v | v in ch && ValidCluster(g, v)
        ensures Next(g, fat1, v) == Next(g, fatM, v)
      {
        NextUnchanged(g, fatM, fatN, [c], v);
      }
      ChainFrame(g, fatM, fat1, ch[0], ch);
    }
  }

  /** Two clusters allocated together, separated again: one ends itself, the other
      hangs on the directory. */
  lemma HungApart(g: Geometry, fat: seq<byte>, k: nat, c: nat, fatM: seq<byte>, dch: seq<nat>, first: nat)
    requires IsTable(g, fat) && Allocated(g, fat, [k, c], fatM)
    requires Chain(g, fat, first) == Some(dch) && dch != []
    ensures ValidCluster(g, k) && ValidCluster(g, c) && ValidCluster(g, Last(dch)) && IsTable(g, fatM)
    ensures IsFree(g, fat, k) && k != c
    ensures Next(g, fatM, k) == c
    ensures var fat1 := Link(g, Link(g, fatM, k, END_MARK), Last(dch), c);
      Hung(g, fat, dch, c, fat1) && Chain(g, fat1, k) == Some([k])
  {
    hide Chain, Link, Next, Hung;
    var both := [k, c];
    assert both[0] == k && both[1] == c && k in both && c in both && Last(dch) in dch;
    ChainNotFree(g, fat, first, dch, Last(dch));
    AllocatedMembers(g, fat, both, fatM);
    var apart := Link(g, fatM, k, END_MARK);
    var fat1 := Link(g, apart, Last(dch), c);
    ChainExactly(g, fat1, k, [k]);
    ApartHung(g, fat, k, c, fatM, dch, fat1);
  }

  lemma ApartHung(g: Geometry, fat: seq<byte>, k: nat, c: nat, fatM: seq<byte>, dch: seq<nat>, fat1: seq<byte>)
    requires IsTable(g, fat) && Allocated(g, fat, [k, c], fatM) && dch != [] && IsTable(g, fat1)
    requires ValidCluster(g, Last(dch)) && ValidCluster(g, k) && IsFree(g, fat, k) && IsFree(g, fat, c)
    requires !IsFree(g, fat, Last(dch)) && Next(g, fatM, c) == END_MARK && k != c
    requires Next(g, fat1, Last(dch)) == c
    requires forall x :: ValidCluster(g, x) && x != Last(dch) && x != k ==> Next(g, fat1, x) == Next(g, fatM, x)
    ensures Hung(g, fat, dch, c, fat1)
  {
    hide Next, Allocated;
    AllocatedMembers(g, fat, [k, c], fatM);
  }

  // ----- Staged data ----------------------------------------------------------------------

  ghost function WithZeros(g: Geometry, writes: seq<Event>, c: nat): seq<Event> {
    writes + ClusterWrites(g, c, Zeros(SECTOR)) + [Flush]
  }

  /** Every write goes to a free cluster other than `c`. */
  ghost predicate Fresh(g: Geometry, fat: seq<byte>, writes: seq<Event>, c: nat)
    requires IsTable(g, fat)
  {
    forall e :: e in writes ==> e.Write? && e.addr.Data? && IsFree(g, fat, e.addr.cluster) && e.addr.cluster != c
  }

  lemma ZerosShape(g: Geometry, fat: seq<byte>, writes: seq<Event>, c: nat)
    requires IsTable(g, fat) && Fresh(g, fat, writes, c) && IsFree(g, fat, c)
    ensures var data := WithZeros(g, writes, c);
      && IsBatch(data) && forall e :: e in Writes(data) ==> e.Write? && e.addr.Data? && IsFree(g, fat, e.addr.cluster)
  {
    hide IsFree;
    var zeros := ClusterWrites(g, c, Zeros(SECTOR));
    var all := writes + zeros;
    assert (all + [Flush])[..|all|] == all;
    forall e | e in all
      ensures e.Write? && e.addr.Data? && IsFree(g, fat, e.addr.cluster)
    {
      if e !in writes { assert e in zeros; }
    }
    forall i | 0 <= i < |all|
      ensures all[i].Write?
    {
      assert all[i] in all;
    }
  }

  lemma ZerosApplied(g: Geometry, d: Disk, fat: seq<byte>, writes: seq<Event>, c: nat)
    requires IsTable(g, fat) && Fresh(g, fat, writes, c)
    ensures var after := Apply(d, WithZeros(g, writes, c));
      && (forall i :: 0 <= i < g.perCluster ==> At(after, Data(c, i)) == Zeros(SECTOR))
      && (forall k: nat, i :: k != c ==> At(after, Data(k, i)) == At(Apply(d, writes), Data(k, i)))
  {
    hide IsFree, Apply;
    var zeros := ClusterWrites(g, c, Zeros(SECTOR));
    var middle := Apply(d, writes);
    ApplyFlushed(d, writes + zeros);
    ApplyConcat(d, writes, zeros);
    forall i | 0 <= i < g.perCluster
      ensures At(Apply(middle, zeros), Data(c, i)) == Zeros(SECTOR)
    {
      ClusterWritesApplied(middle, g, c, Zeros(SECTOR), i);
    }
    forall k: nat, i | k != c
      ensures At(Apply(middle, zeros), Data(k, i)) == At(middle, Data(k, i))
    {
      ApplyElsewhere(middle, zeros, Data(k, i));
    }
  }

  // ----- A full directory, as the search found it ---------------------------------------------

  ghost predicate MustGrow(v: FatVolume, t: Target, dir: Dir)
    reads v
  {
    && v.Healthy() && IsDir(v.Tree(), dir) && dir.SubDir? && t.grow && !t.found && !t.end && t.length == 0
    && var all := AllSlots(v.g, v.Tree(), dir);
       NoEndBefore(v.disk, all, |all|) && |all| + v.g.perCluster * ENTRIES_PER_SECTOR <= DIRECTORY_ENTRY_LIMIT
  }

  ghost function ExtendOf(v: FatVolume, dir: Dir, data: seq<Event>, fat1: seq<byte>, c: nat, e: Entry): Extend
    requires dir.SubDir?
    reads v
  {
    Extend(v.g, v.disk, v.fat, v.depth, dir.slot, data, fat1, c, e)
  }

  lemma MustGrowFull(v: FatVolume, t: Target, dir: Dir, x: Extend)
    requires MustGrow(v, t, dir) && x == ExtendOf(v, dir, x.data, x.fat1, x.c, x.entry)
    ensures Full(x) && Tree0(x) == v.Tree() && First(Tree0(x)[x.dir].entry) == dir.first
    ensures Chain(v.g, v.fat, dir.first) == Some(Chain0(x)) && dir.length == |Chain0(x)| && Chain0(x) != []
  {
    hide Nodes, DirSlots, EntryAt, Chain, DiskTable;
    v.HealthyBasics();
    v.DirChain(dir.slot);
    ChainIsChain(v.g, v.fat, dir.first);
  }

  lemma ExtendStaged(v: FatVolume, t: Target, dir: Dir, x: Extend, writes: seq<Event>)
    requires MustGrow(v, t, dir) && x == ExtendOf(v, dir, x.data, x.fat1, x.c, x.entry)
    requires Fresh(v.g, v.fat, writes, x.c) && x.data == WithZeros(v.g, writes, x.c)
    requires Full(x) && Hung(v.g, v.fat, Chain0(x), x.c, x.fat1)
    ensures Staged(x)
    ensures forall k: nat, i :: k != x.c ==> At(Apply(x.d, x.data), Data(k, i)) == At(Apply(x.d, writes), Data(k, i))
  {
    hide Full, Hung, IsFree, Apply, Nodes, WithZeros, DiskTable, Fresh, AllSlots;
    HungBasics(v.g, v.fat, Chain0(x), x.c, x.fat1);
    ZerosShape(v.g, v.fat, writes, x.c);
    ZerosApplied(v.g, v.disk, v.fat, writes, x.c);
  }

  lemma HungBasics(g: Geometry, fat: seq<byte>, ch: seq<nat>, c: nat, fat1: seq<byte>)
    requires Hung(g, fat, ch, c, fat1)
    ensures IsFree(g, fat, c) && IsTable(g, fat1)
  {
  }

  /** Hang a free cluster on the directory in a table that may already hold a new chain. */
  method LinkCluster(v: FatVolume, dir: Dir, fatM: seq<byte>, ghost ch: seq<nat>, ghost dch: seq<nat>)
    returns (error: FsError, fat1: seq<byte>, c: nat)
    requires v.Mounted() && dir.SubDir? && Allocated(v.g, v.fat, ch, fatM) && dch != []
    requires Chain(v.g, v.fat, dir.first) == Some(dch) && dir.length == |dch|
    ensures error == if FreeClusters(v.g, fatM) >= 1 then Ok else NoSpace
    ensures error == Ok ==> Hung(v.g, v.fat, dch, c, fat1) && c !in ch && c < 0x1_0000
    ensures error == Ok && ch != [] ==> Chain(v.g, fat1, ch[0]) == Some(ch)
  {
    hide Chain, Hung, Allocated, FreeClusters;
    fat1, c := fatM, 0;
    AllocatedTable(v.g, v.fat, ch, fatM);
    var fatN;
    ghost var one;
    error, fatN, c, one := Allocate(v.g, fatM, 1);
    if error != Ok { return; }
    assert one == [c];
    HungOn(v.g, v.fat, ch, fatM, c, fatN, dch, dir.first);
    var last := v.ClusterAt(dir.first, dir.length - 1, dch);
    fat1 := Link(v.g, fatN, last, c);
  }

  // ----- Install and publish -----------------------------------------------------------------

  /** Data staged: flush, install both tables, publish in the new cluster. */
  method InstallAndPublish(v: FatVolume, slot: Slot, e: Entry, fat1: seq<byte>, ghost t0: seq<Event>,
                           ghost writes: seq<Event>, ghost x: Extend)
    returns (error: FsError)
    requires v.Mounted() && !v.faulted && v.started && Staged(x) && x.g == v.g && x.fat == v.fat && x.fat1 == fat1
    requires x.depth == v.depth
    requires x.data == writes + [Flush] && v.disk == Apply(x.d, writes) && Issued(t0, v.trace, writes, Ok)
    requires Classify(x.entry) == Used && WellFormed(Publication(x)) && slot == NewSlot(x) && e == x.entry
    modifies v`cache, v`disk, v`trace, v`started, v`fat, v`faulted
    ensures v.Mounted() && v.started
    ensures IsTable(x.g, x.fat) && Issued(t0, v.trace, GrowPlan(x), error)
    ensures error != Ok ==> v.faulted
    ensures error == Ok ==> !v.faulted && v.disk == Stage(Publication(x), BATCHES) && v.fat == fat1
  {
    hide Staged, WellFormed, Stage, Batch, Nodes, DiskTable, Apply, TableBatch, Quiet, Located, Finished, Classify,
         EntryBatch, Full, Issued, GrowPlan, Installed, v.Mounted;
    StagedBasics(x);
    error := InstallTables(v, fat1, t0, writes, x);
    ghost var tables, entry := Installing(x), EntryBatch(Installed(x), NewSlot(x), x.entry);
    GrowPlanIs(x);
    if error == Ok {
      ghost var t1 := v.trace;
      PublicationStages(x);
      error := v.WriteEntryFlushed(slot, e);
      assert error == Ok ==> v.disk == Finished(x) by { PublishedIs(x); }
      IssuedThen(t0, t1, v.trace, tables, entry, error);
    } else {
      IssuedPart(t0, v.trace, tables, entry, error);
    }
    v.Finish(error);
  }

  /** Data and both tables, each behind its flush. */
  ghost function Installing(x: Extend): seq<Event>
    requires IsTable(x.g, x.fat) && IsTable(x.g, x.fat1)
  {
    x.data + (TableBatch(x.g, x.fat, x.fat1, 0) + TableBatch(x.g, x.fat, x.fat1, 1))
  }

  method InstallTables(v: FatVolume, fat1: seq<byte>, ghost t0: seq<Event>, ghost writes: seq<Event>, ghost x: Extend)
    returns (error: FsError)
    requires v.Mounted() && v.started && x.g == v.g && x.fat == v.fat && x.fat1 == fat1 && IsTable(v.g, fat1)
    requires IsTable(v.g, v.fat)
    requires x.data == writes + [Flush] && v.disk == Apply(x.d, writes) && Issued(t0, v.trace, writes, Ok)
    modifies v`cache, v`disk, v`trace, v`started, v`fat
    ensures v.Mounted() && v.started && error in {Ok, IoError}
    ensures Issued(t0, v.trace, Installing(x), error)
    ensures error == Ok ==> v.disk == Installed(x) && v.fat == fat1
  {
    hide Apply, TableBatch, Issued, Quiet;
    ApplyFlushed(x.d, writes);
    ghost var tables := TableBatch(x.g, x.fat, x.fat1, 0) + TableBatch(x.g, x.fat, x.fat1, 1);
    ghost var staged := v.trace;
    error := v.FlushDevice();
    FlushIssued(staged, v.trace, error);
    IssuedThen(t0, staged, v.trace, writes, [Flush], error);
    if error != Ok {
      IssuedPart(t0, v.trace, x.data, tables, error);
      return;
    }
    ghost var t1 := v.trace;
    error := v.PersistTable(fat1);
    IssuedThen(t0, t1, v.trace, x.data, tables, error);
  }

  lemma FlushIssued(before: seq<Event>, after: seq<Event>, error: FsError)
    requires after == if error == Ok then before + [Flush] else before
    ensures Issued(before, after, [Flush], error)
  {
  }

  lemma GrowPlanIs(x: Extend)
    requires IsTable(x.g, x.fat) && IsTable(x.g, x.fat1)
    ensures GrowPlan(x) == Installing(x) + EntryBatch(Installed(x), NewSlot(x), x.entry)
  {
    hide TableBatch, EntryBatch, Installed, Joined;
    JoinedPrefix(GrowBatches(x));
    RegroupLast(x.data, TableBatch(x.g, x.fat, x.fat1, 0), TableBatch(x.g, x.fat, x.fat1, 1));
  }

  /** The trees the volume passes through, from `before`, when its directory grows. */
  ghost predicate Grew(v: FatVolume, d0: Disk, t0: seq<Event>, before: map<Slot, Node>, depth: nat,
                       views: seq<map<Slot, Node>>)
    reads v`trace
  {
    && v.g.Valid() && t0 <= v.trace && Passes(views, before)
    && SomeCopyRun(v.g, d0, v.trace[|t0|..], depth, views)
    && (Together(views) ==> BothCopiesRun(v.g, d0, v.trace[|t0|..], depth, views))
  }

  /** No directory grows, or the two table entries that change for it share a sector. */
  ghost predicate Together(views: seq<map<Slot, Node>>) {
    |views| == 3 ==>
      exists dir, c ::
        && Longer(views[0], dir, c, views[1]) && views[0][dir].clusters != []
        && Neighbours(Last(views[0][dir].clusters), c)
  }

  /** Straight from one tree to another, or by way of one longer directory. */
  ghost predicate Passes(views: seq<map<Slot, Node>>, before: map<Slot, Node>) {
    && 2 <= |views| <= 3 && views[0] == before
    && (|views| == 3 ==> exists dir, c :: Longer(before, dir, c, views[1]))
  }

  ghost predicate Longer(before: map<Slot, Node>, dir: Slot, c: nat, after: map<Slot, Node>) {
    && dir in before && before[dir].DirNode?
    && after == before[dir := DirNode(before[dir].entry, before[dir].clusters + [c])]
  }

  ghost predicate EndsAt(views: seq<map<Slot, Node>>, tree: map<Slot, Node>) {
    |views| > 0 && views[|views| - 1] == tree
  }

  lemma GrowthPasses(x: Extend)
    requires Staged(x) && Located(Publication(x))
    ensures Audited(x.g, x.d, x.fat, x.depth) && Passes(GrowthViews(x), Tree0(x))
  {
    hide Staged, Located, After, Full, Audited, Tree0, Grown, Longer, Publication;
    StagedBasics(x);
    GrownIsLonger(x);
    assert GrowthViews(x)[1] == Grown(x);
  }

  lemma TogetherIsOneSector(x: Extend)
    requires Staged(x) && Located(Publication(x)) && Together(GrowthViews(x))
    ensures Full(x) && OneSector(x)
  {
    hide Staged, Located, After, Full, Audited, Tree0, Grown, Longer, Publication, Neighbours;
    StagedBasics(x);
    GrownIsLonger(x);
    LongerTogether(GrowthViews(x), x.dir, x.c);
    OwnChain(x);
  }

  lemma LongerTogether(views: seq<map<Slot, Node>>, dir: Slot, c: nat)
    requires |views| == 3 && Together(views) && Longer(views[0], dir, c, views[1])
    ensures views[0][dir].clusters != [] && Neighbours(Last(views[0][dir].clusters), c)
  {
    hide Neighbours;
    var dir', c' :|
      && Longer(views[0], dir', c', views[1]) && views[0][dir'].clusters != []
      && Neighbours(Last(views[0][dir'].clusters), c');
    LongerOnce(views[0], dir, c, dir', c', views[1]);
  }

  lemma OwnChain(x: Extend)
    requires Full(x)
    ensures x.dir in Tree0(x) && Tree0(x)[x.dir].clusters == Chain0(x)
  {
    hide Nodes, DiskTable, Exclusive, DirSlots, EntryAt;
  }

  lemma LongerOnce(before: map<Slot, Node>, dir: Slot, c: nat, dir': Slot, c': nat, after: map<Slot, Node>)
    requires Longer(before, dir, c, after) && Longer(before, dir', c', after)
    ensures dir == dir' && c == c'
  {
    assert after[dir].clusters == before[dir].clusters + [c];
    assert |after[dir].clusters| != |before[dir].clusters|;
    assert after[dir].clusters[|before[dir].clusters|] == c;
  }

  lemma GrownIsLonger(x: Extend)
    requires Full(x)
    ensures Longer(Tree0(x), x.dir, x.c, Grown(x))
  {
    hide Nodes, DiskTable, Exclusive, DirSlots, EntryAt;
  }

  /** A growing creation ends applied and flushed, faulted, or without a write. */
  lemma GrowthOutcome(v: FatVolume, x: Extend, t0: seq<Event>, error: FsError)
    requires Staged(x) && WellFormed(Publication(x)) && x.g == v.g && IsTable(x.g, x.fat) && IsTable(x.g, x.fat1)
    requires Issued(t0, v.trace, GrowPlan(x), error) && (error == Ok ==> v.disk == Stage(Publication(x), BATCHES))
    requires error != Ok && !v.faulted ==> v.disk == x.d && Quiet(t0, v.trace)
    ensures Located(Publication(x)) && Audited(x.g, x.d, x.fat, x.depth) && v.Synced(x.d, t0)
    ensures Grew(v, x.d, t0, Tree0(x), DepthAfter(Publication(x)), GrowthViews(x))
  {
    hide Staged, WellFormed, Stage, Batch, Nodes, DiskTable, Apply, Quiet, Located, Finished, Full, GrowPlan,
         GrowthViews, SomeCopyRun, BothCopiesRun, After, DepthAfter, Publication, Audited, Tree0, Passes, Together,
         OneSector;
    StagedBasics(x);
    Basics(Publication(x));
    IssuedRun(t0, v.trace, GrowPlan(x), error);
    GrowthPrefix(x, v.trace[|t0|..]);
    if Together(GrowthViews(x)) {
      TogetherIsOneSector(x);
      GrowthPrefixBoth(x, v.trace[|t0|..]);
    }
    GrowthPasses(x);
    if error == Ok {
      GrownSynced(v, x, t0);
    } else if !v.faulted {
      v.QuietIsSynced(x.d, t0);
    }
  }

  lemma GrownSynced(v: FatVolume, x: Extend, t0: seq<Event>)
    requires Staged(x) && WellFormed(Publication(x)) && IsTable(x.g, x.fat) && IsTable(x.g, x.fat1)
    requires t0 <= v.trace && v.trace[|t0|..] == GrowPlan(x) && v.disk == Stage(Publication(x), BATCHES)
    ensures v.Synced(x.d, t0)
  {
    hide Staged, WellFormed, Stage, Batch, Nodes, DiskTable, Apply, Located, Finished, Full, GrowBatches, Joined,
         AllBatches, IsBatch;
    StagedBasics(x);
    PublicationStages(x);
    GrowStages(x);
    var b := GrowBatches(x);
    assert b[..4] == b;
    BatchesSettled(b);
  }

  lemma BatchesSettled(b: seq<seq<Event>>)
    requires AllBatches(b)
    ensures Settled(Joined(b))
  {
    JoinedSettled(b);
  }

  /** Everything about a growing creation that is settled before it starts. */
  ghost predicate Prepared(g: Geometry, d: Disk, fat: seq<byte>, depth: nat, tree: map<Slot, Node>, x: Extend,
                           fat1: seq<byte>, writes: seq<Event>, e: Entry, dir: Slot, c: nat, node: Node, depth': nat) {
    && x == Extend(g, d, fat, depth, dir, writes + [Flush], fat1, c, e) && Classify(e) == Used
    && Staged(x) && WellFormed(Publication(x)) && Tree0(x) == tree && DepthAfter(Publication(x)) == depth'
    && dir in tree && tree[dir].DirNode? && Slot(Data(c, 0), 0) !in tree
    && After(Publication(x)) == NewNodeAt(tree, dir, c, node)
    && Budget.Burden(g, Budget.Final(Publication(x)), After(Publication(x)), Slot(Data(c, 0), 0)) == Share(node)
  }

  /** What a new node adds to the entries of the volume. */
  function Share(node: Node): nat { if node.DirNode? then Budget.NEW_DIRECTORY else 0 }

  /** After staging succeeded or failed: finish the creation. On success the tree may be
      one level deeper. */
  method CompleteGrowth(v: FatVolume, slot: Slot, e: Entry, fat1: seq<byte>, staged: FsError, ghost d0: Disk,
                        ghost t0: seq<Event>, ghost tree: map<Slot, Node>, ghost depth: nat, ghost writes: seq<Event>,
                        ghost x: Extend, ghost node: Node)
    returns (error: FsError, ghost views: seq<map<Slot, Node>>)
    requires v.Mounted() && !v.faulted
    requires Prepared(v.g, d0, v.fat, v.depth, tree, x, fat1, writes, e, x.dir, x.c, node, depth)
    requires Issued(t0, v.trace, writes, staged) && slot == Slot(Data(x.c, 0), 0)
    requires if staged == Ok then v.started && v.disk == Apply(d0, writes) else !v.started ==>
      v.disk == d0 && Quiet(t0, v.trace)
    modifies v`cache, v`disk, v`trace, v`started, v`fat, v`faulted, v`depth
    ensures v.Mounted() && t0 <= v.trace && v.Synced(d0, t0) && Grew(v, d0, t0, tree, depth, views)
    ensures v.depth == if error == Ok then depth else old(v.depth)
    ensures error == Ok ==> v.Healthy() && EndsAt(views, v.Tree())
    ensures error == Ok ==>
      x.dir in tree && tree[x.dir].DirNode? && slot !in tree && v.Tree() == NewNodeAt(tree, x.dir, x.c, node)
    ensures error == Ok ==> v.Load() == Entries.Entries(v.g, d0, tree) + 2 + Share(node)
    ensures error != Ok && !v.faulted ==> v.disk == d0 && v.fat == old(v.fat)
  {
    hide Staged, WellFormed, Stage, Nodes, DiskTable, Apply, Quiet, Located, Classify, Issued, Grew, v.Synced, Audited,
         GrowthViews, Tree0, DepthAfter, NewNodeAt, After, Full, Entries.Entries, Budget.Burden;
    StagedBasics(x);
    error := PublishGrowth(v, slot, e, fat1, staged, t0, writes, x);
    views := GrowthViews(x);
    LastView(x);
    GrewRun(v, d0, t0, tree, depth, views);
    if error == Ok {
      v.depth := depth;
      PublicationFields(x);
      v.Performed(Publication(x));
      Budget.EntriesGrown(x);
    }
  }

  lemma PublicationFields(x: Extend)
    requires Full(x) && IsTable(x.g, x.fat1)
    ensures Publication(x).g == x.g && Publication(x).fat2 == x.fat1
  {
  }

  lemma GrewRun(v: FatVolume, d0: Disk, t0: seq<Event>, before: map<Slot, Node>, depth: nat,
                views: seq<map<Slot, Node>>)
    requires Grew(v, d0, t0, before, depth, views)
    ensures t0 <= v.trace
  {
  }

  method PublishGrowth(v: FatVolume, slot: Slot, e: Entry, fat1: seq<byte>, staged: FsError, ghost t0: seq<Event>,
                       ghost writes: seq<Event>, ghost x: Extend)
    returns (error: FsError)
    requires v.Mounted() && !v.faulted && Staged(x) && x.g == v.g && x.fat == v.fat && x.fat1 == fat1
    requires x.depth == v.depth
    requires x.data == writes + [Flush] && Issued(t0, v.trace, writes, staged)
    requires if staged == Ok then v.started && v.disk == Apply(x.d, writes) else !v.started ==>
      v.disk == x.d && Quiet(t0, v.trace)
    requires Classify(x.entry) == Used && WellFormed(Publication(x)) && slot == NewSlot(x) && e == x.entry
    modifies v`cache, v`disk, v`trace, v`started, v`fat, v`faulted
    ensures v.Mounted() && v.Synced(x.d, t0) && (staged != Ok ==> error == staged)
    ensures error == Ok ==> !v.faulted && v.disk == Stage(Publication(x), BATCHES) && v.fat == fat1
    ensures error != Ok && !v.faulted ==> v.disk == x.d && v.fat == old(v.fat)
    ensures Located(Publication(x)) && Audited(x.g, x.d, x.fat, x.depth)
    ensures Grew(v, x.d, t0, Tree0(x), DepthAfter(Publication(x)), GrowthViews(x))
  {
    hide Staged, WellFormed, Stage, Nodes, DiskTable, Apply, Quiet, Located, Finished, Classify, Full, Issued, GrowPlan,
         Grew, v.Synced, Audited, GrowthViews, Tree0, DepthAfter;
    StagedBasics(x);
    if staged == Ok {
      error := InstallAndPublish(v, slot, e, fat1, t0, writes, x);
    } else {
      error := staged;
      StagingFailed(x, t0, v.trace, writes, error);
      v.Finish(error);
    }
    GrowthOutcome(v, x, t0, error);
  }

  lemma StagingFailed(x: Extend, t0: seq<Event>, t: seq<Event>, writes: seq<Event>, error: FsError)
    requires IsTable(x.g, x.fat) && IsTable(x.g, x.fat1) && x.data == writes + [Flush] && Issued(t0, t, writes, error)
    requires error != Ok
    ensures Issued(t0, t, GrowPlan(x), error)
  {
    hide Issued, GrowPlan, TableBatch, EntryBatch, Installed;
    var tables := TableBatch(x.g, x.fat, x.fat1, 0) + TableBatch(x.g, x.fat, x.fat1, 1);
    GrowPlanIs(x);
    IssuedPart(t0, t, writes, [Flush], error);
    IssuedPart(t0, t, x.data, tables, error);
    IssuedPart(t0, t, Installing(x), EntryBatch(Installed(x), NewSlot(x), x.entry), error);
  }

  lemma PublishedIs(x: Extend)
    requires IsTable(x.g, x.fat) && IsTable(x.g, x.fat1)
    ensures Finished(x) == Apply(Installed(x), EntryBatch(Installed(x), NewSlot(x), x.entry))
  {
  }

  /** Live slots lie in sectors in use. */
  lemma FreshSlot(v: FatVolume, c: nat)
    requires v.Healthy() && IsFree(v.g, v.fat, c)
    ensures Slot(Data(c, 0), 0) !in v.Tree()
  {
    hide Nodes, DiskTable, Exclusive, DirSlots, RootSlots, NodeAt, Reached;
    v.HealthyBasics();
    var s := Slot(Data(c, 0), 0);
    if s in v.Tree() {
      var place := PlaceOf(v.g, v.disk, v.fat, v.depth, s);
      if place.InRoot? {
        RootSlotsInRoot(v.g, place.index);
      } else {
        DirSlotsInChain(v.g, v.Tree()[place.dir].clusters, place.index + 2);
        v.NodeIs(place.dir);
        NodeChain(v.g, v.disk, v.fat, place.dir);
      }
    }
  }

  // ----- A new file --------------------------------------------------------------------------

  ghost predicate FileEntry(e: Entry, first: nat, size: nat) {
    Classify(e) == Used && !DirectoryBit(e) && Size(e) == size && First(e) == first
  }

  ghost function FileWrites(g: Geometry, ch: seq<nat>, content: seq<byte>): seq<Event> {
    DataWrites(ChainSectors(g, ch), content)
  }

  /** Staging a file and a zeroed cluster prepares the extension, and its outcome is
      the longer directory holding the file. */
  lemma FileExtends(v: FatVolume, t: Target, dir: Dir, x: Extend, ch: seq<nat>, fatM: seq<byte>, content: seq<byte>)
    requires MustGrow(v, t, dir) && Allocated(v.g, v.fat, ch, fatM) && |ch| == Needed(v.g, |content|)
    requires x == ExtendOf(v, dir, WithZeros(v.g, FileWrites(v.g, ch, content), x.c), x.fat1, x.c, x.entry)
    requires Full(x) && Hung(v.g, v.fat, Chain0(x), x.c, x.fat1) && x.c !in ch
    requires (ch != [] ==> Chain(v.g, x.fat1, ch[0]) == Some(ch))
    requires FileEntry(x.entry, if ch == [] then 0 else ch[0], |content|)
    ensures Staged(x) && WellFormed(Publication(x))
    ensures After(Publication(x)) == Grown(x)[NewSlot(x) := FileNode(x.entry, ch, content)]
    ensures DepthAfter(Publication(x)) == v.depth
  {
    hide Full, Hung, Apply, Nodes, WithZeros, DiskTable, AllSlots, ChainSectors, DataWrites, Content, Chain, Needed,
         Allocated, Classify, Staged, Grown, WellFormed, Finished;
    var writes := FileWrites(v.g, ch, content);
    v.HealthyBasics();
    FreshFile(v.g, v.fat, ch, fatM, content, x.c);
    ExtendStaged(v, t, dir, x, writes);
    StagedBasics(x);
    ReadBack(v.g, x.d, ch, content);
    SameContent(v.g, Apply(x.d, writes), Apply(x.d, x.data), ch, |content|);
    ExtendedFile(x, ch, content);
    FileIsLeaf(x.g, Finished(x), x.fat1, NewSlot(x), First(Tree0(x)[x.dir].entry));
    AllocatedMembers(v.g, v.fat, ch, fatM);
    PublicationCommits(x);
  }

  lemma FileIsLeaf(g: Geometry, d: Disk, fat: seq<byte>, s: Slot, self: nat)
    requires g.perCluster > 0 && IsTable(g, fat) && NodeAt(g, d, fat, s).Some? && NodeAt(g, d, fat, s).value.FileNode?
    ensures Leaf(g, d, fat, s, self)
  {
  }

  lemma FreshFile(g: Geometry, fat: seq<byte>, ch: seq<nat>, fatM: seq<byte>, content: seq<byte>, c: nat)
    requires g.perCluster > 0 && IsTable(g, fat) && Allocated(g, fat, ch, fatM) && c !in ch
    requires |ch| == Needed(g, |content|)
    ensures Fresh(g, fat, FileWrites(g, ch, content), c) && NoDuplicates(ch)
  {
    hide ChainSectors, Allocated, Needed, IsFree;
    AllocatedMembers(g, fat, ch, fatM);
    var sectors := ChainSectors(g, ch);
    forall e | e in FileWrites(g, ch, content)
      ensures e.Write? && e.addr.Data? && IsFree(g, fat, e.addr.cluster) && e.addr.cluster != c
    {
      var i :| 0 <= i < |sectors| && FileWrites(g, ch, content)[i] == e;
      ChainSectorsOwned(g, ch, sectors[i]);
    }
  }

  lemma ReadBack(g: Geometry, d: Disk, ch: seq<nat>, content: seq<byte>)
    requires g.perCluster > 0 && |ch| == Needed(g, |content|) && NoDuplicates(ch)
    ensures Content(Apply(d, FileWrites(g, ch, content)), ChainSectors(g, ch), |content|) == content
  {
    hide ChainSectors, DataWrites, Content, Apply, Needed;
    ChainSectorsAreDistinct(g, ch);
    NeededFits(g, |content|, ch);
    WrittenIsRead(d, ChainSectors(g, ch), content);
  }

  lemma WholeContent(data: seq<byte>)
    ensures NewContent([], |data|, 0, data) == data
  {
  }

  /** The staged writes reach the device, then the zeroed cluster. */
  method StageFile(v: FatVolume, data: seq<byte>, fat1: seq<byte>, first: nat, c: nat, ghost ch: seq<nat>)
    returns (error: FsError)
    requires v.Mounted() && IsTable(v.g, fat1) && |ch| == Needed(v.g, |data|)
    requires ch != [] ==> Chain(v.g, fat1, first) == Some(ch)
    modifies v`cache, v`disk, v`trace, v`started
    ensures v.Steady(old(v.started), old(v.disk), old(v.trace))
    ensures v.Mounted() && error in {Ok, IoError}
    ensures Issued(old(v.trace), v.trace, FileWrites(v.g, ch, data) + ClusterWrites(v.g, c, Zeros(SECTOR)), error)
    ensures error == Ok ==>
      v.started && v.disk == Apply(old(v.disk), FileWrites(v.g, ch, data) + ClusterWrites(v.g, c, Zeros(SECTOR)))
  {
    hide Apply, Chain, NewContent, ChainSectors, DataWrites, Needed, ClusterWrites, Issued;
    ghost var st := Staging(v.disk, v.trace, [], 0, ch, |data|, 0, data, false);
    WholeContent(data);
    assert st.All(v.g) == FileWrites(v.g, ch, data);
    ghost var zeros := ClusterWrites(v.g, c, Zeros(SECTOR));
    error := v.CopyContents(st, 0, fat1, first, 0, 0, |data|, 0, data, false);
    if error != Ok {
      IssuedPart(old(v.trace), v.trace, FileWrites(v.g, ch, data), zeros, error);
      return;
    }
    ghost var t1 := v.trace;
    error := ZeroCluster(v, c, 0, 0);
    IssuedThen(old(v.trace), t1, v.trace, FileWrites(v.g, ch, data), zeros, error);
    ApplyConcat(old(v.disk), FileWrites(v.g, ch, data), ClusterWrites(v.g, c, Zeros(SECTOR)));
  }

  /** Create a file in a full directory: copy its data, extend the directory by one
      zeroed cluster, install the tables and publish in the new cluster's first slot. */
  method CreateGrowing(v: FatVolume, t: Target, dir: Dir, data: seq<byte>)
    returns (error: FsError, ghost node: Node, ghost c: nat, ghost views: seq<map<Slot, Node>>)
    requires MustGrow(v, t, dir) && !v.started && Classify(t.entry) == Used && !DirectoryBit(t.entry)
    modifies v`cache, v`disk, v`trace, v`started, v`fat, v`faulted, v`depth
    ensures v.Mounted() && old(v.trace) <= v.trace && v.depth == old(v.depth) && v.Synced(old(v.disk), old(v.trace))
    // A power loss finds a whole copy of the table with the old tree, the grown one or the new one.
    ensures Grew(v, old(v.disk), old(v.trace), old(v.Tree()), v.depth, views)
    ensures error == Ok ==> v.Healthy() && EndsAt(views, v.Tree())
    ensures error == Ok ==>
      v.Healthy() && node.FileNode? && node.content == data && node.entry[..11] == t.entry[..11] &&
      Size(node.entry) == |data|
    ensures error == Ok ==> Slot(Data(c, 0), 0) !in old(v.Tree()) && var dirNode := old(v.Tree())[dir.slot];
      v.Tree() == old(v.Tree())[dir.slot := DirNode(dirNode.entry, dirNode.clusters + [c])][Slot(Data(c, 0), 0) := node]
    ensures error == Ok ==> v.Load() == old(v.Load()) + 2
    ensures error != Ok && !v.faulted ==> v.Healthy() && v.disk == old(v.disk) && v.Tree() == old(v.Tree())
    ensures |data| >= 0x1_0000_0000 || |data| > v.g.clusters * ClusterBytes(v.g) ==> error == FsError.Range
  {
    hide Full, Hung, Apply, Nodes, DiskTable, AllSlots, ChainSectors, DataWrites, Chain, Needed, Allocated, Classify,
         NoEndBefore, Staged, WellFormed, Finished, Stage, FileWrites, ClusterWrites, Audited, FreeClusters, After,
         Before, Located, Grew, v.Synced;
    v.HealthyBasics();
    node, c, views := FileNode(t.entry, [], data), 0, [v.Tree(), v.Tree()];
    v.QuietIsSynced(v.disk, v.trace);
    NothingGrew(v, v.depth);
    if |data| >= 0x1_0000_0000 || |data| > v.g.clusters * ClusterBytes(v.g) { return FsError.Range, node, c, views; }
    var noMemory: bool := *;
    if noMemory { return NoMemory, node, c, views; }
    var fatM, first, fat1, c';
    ghost var ch;
    error, fatM, first, ch := Allocate(v.g, v.fat, Needed(v.g, |data|));
    if error != Ok { return; }
    ghost var x := ExtendOf(v, dir, [], v.fat, 0, t.entry);
    MustGrowFull(v, t, dir, x);
    ghost var dch := Chain0(x);
    error, fat1, c' := LinkCluster(v, dir, fatM, ch, dch);
    if error != Ok { return; }
    c := c';
    error, node, views := FinishGrowing(v, t, dir, data, fatM, fat1, first, c', ch, dch);
  }

  lemma NothingGrew(v: FatVolume, depth: nat)
    requires v.Healthy() && v.depth <= depth
    ensures Grew(v, v.disk, v.trace, v.Tree(), depth, [v.Tree(), v.Tree()])
  {
    hide Nodes, DiskTable, Exclusive, AtomicRun, SomeCopyRun, BothCopiesRun;
    assert v.trace[|v.trace|..] == [];
    NothingIssued(v.g, v.disk, v.fat, v.depth, depth, [], v.Tree());
    AtomicHasCopy(v.g, v.disk, [], depth, v.Tree(), v.Tree());
  }

  lemma AtomicHasCopy(g: Geometry, d0: Disk, run: seq<Event>, depth: nat, before: map<Slot, Node>,
                      after: map<Slot, Node>)
    requires g.Valid() && AtomicRun(g, d0, run, depth, before, after)
    ensures SomeCopyRun(g, d0, run, depth, [before, after]) && BothCopiesRun(g, d0, run, depth, [before, after])
  {
    hide Nodes, DiskTable, CrashState;
    var views := [before, after];
    forall n: nat, d: Disk | n <= |run| && CrashState(d0, run[..n], d)
      ensures SomeCopy(g, d, depth, views) && OneOf(g, d, 0, depth, views) && OneOf(g, d, 1, depth, views)
    {
      assert CopyShows(g, d, 0, depth, views[0]) || CopyShows(g, d, 0, depth, views[1]);
      assert CopyShows(g, d, 1, depth, views[0]) || CopyShows(g, d, 1, depth, views[1]);
    }
  }

  method FinishGrowing(v: FatVolume, t: Target, dir: Dir, data: seq<byte>, ghost fatM: seq<byte>, fat1: seq<byte>,
                       first: nat, c: nat, ghost ch: seq<nat>, ghost dch: seq<nat>)
    returns (error: FsError, ghost node: Node, ghost views: seq<map<Slot, Node>>)
    requires MustGrow(v, t, dir) && !v.started && Classify(t.entry) == Used && !DirectoryBit(t.entry)
    requires |data| < 0x1_0000_0000
    requires Allocated(v.g, v.fat, ch, fatM) && |ch| == Needed(v.g, |data|) && first == (if ch == [] then 0 else ch[0])
    requires dch == v.Tree()[dir.slot].clusters && Hung(v.g, v.fat, dch, c, fat1) && c !in ch
    requires ch != [] ==> Chain(v.g, fat1, ch[0]) == Some(ch)
    modifies v`cache, v`disk, v`trace, v`started, v`fat, v`faulted, v`depth
    ensures v.Mounted() && old(v.trace) <= v.trace && v.depth == old(v.depth) && v.Synced(old(v.disk), old(v.trace))
    ensures Grew(v, old(v.disk), old(v.trace), old(v.Tree()), v.depth, views)
    ensures error == Ok ==> v.Healthy() && EndsAt(views, v.Tree())
    ensures error == Ok ==>
      v.Healthy() && node.FileNode? && node.content == data && node.entry[..11] == t.entry[..11] &&
      Size(node.entry) == |data|
    ensures error == Ok ==> Slot(Data(c, 0), 0) !in old(v.Tree()) && var dirNode := old(v.Tree())[dir.slot];
      v.Tree() == old(v.Tree())[dir.slot := DirNode(dirNode.entry, dirNode.clusters + [c])][Slot(Data(c, 0), 0) := node]
    ensures error == Ok ==> v.Load() == old(v.Load()) + 2
    ensures error != Ok && !v.faulted ==> v.Healthy() && v.disk == old(v.disk) && v.Tree() == old(v.Tree())
  {
    hide Full, Hung, Apply, Nodes, DiskTable, AllSlots, ChainSectors, DataWrites, Chain, Needed, Allocated, Classify,
         NoEndBefore, FileWrites, ClusterWrites, Audited, Rewritten, Grew, v.Synced, Issued, Quiet, Prepared, IsFree,
         NewNodeAt, Entries.Entries;
    v.HealthyBasics();
    HungBasics(v.g, v.fat, dch, c, fat1);
    FirstOfChain(v.g, v.fat, ch, fatM);
    var e := Rewritten(t.entry, first, |data|);
    RewrittenUsed(t.entry, first, |data|);
    node := FileNode(e, ch, data);
    ghost var writes := FileWrites(v.g, ch, data) + ClusterWrites(v.g, c, Zeros(SECTOR));
    ghost var x := PrepareFile(v, t, dir, e, ch, fatM, fat1, c, data);
    error := StageFile(v, data, fat1, first, c, ch);
    error, views := CompleteGrowth(v, Slot(Data(c, 0), 0), e, fat1, error, old(v.disk), old(v.trace), old(v.Tree()),
                                   v.depth, writes, x, node);
    NewNodeIs(old(v.Tree()), dir.slot, c, node);
  }

  lemma FirstOfChain(g: Geometry, fat: seq<byte>, ch: seq<nat>, fatM: seq<byte>)
    requires IsTable(g, fat) && Allocated(g, fat, ch, fatM)
    ensures ch != [] ==> ch[0] < 0x1_0000
  {
    AllocatedMembers(g, fat, ch, fatM);
    assert ch != [] ==> ch[0] in ch;
  }

  /** The tree with a longer directory and the new node in its new cluster. */
  ghost function NewNodeAt(before: map<Slot, Node>, dir: Slot, c: nat, node: Node): map<Slot, Node>
    requires dir in before && before[dir].DirNode?
  {
    before[dir := DirNode(before[dir].entry, before[dir].clusters + [c])][Slot(Data(c, 0), 0) := node]
  }

  lemma NewNodeIs(before: map<Slot, Node>, dir: Slot, c: nat, node: Node)
    requires dir in before && before[dir].DirNode?
    ensures NewNodeAt(before, dir, c, node) ==
      before[dir := DirNode(before[dir].entry, before[dir].clusters + [c])][Slot(Data(c, 0), 0) := node]
  {
  }

  lemma PrepareFile(v: FatVolume, t: Target, dir: Dir, e: Entry, ch: seq<nat>, fatM: seq<byte>, fat1: seq<byte>, c: nat,
                    data: seq<byte>)
    returns (x: Extend)
    requires MustGrow(v, t, dir) && Allocated(v.g, v.fat, ch, fatM) && |ch| == Needed(v.g, |data|)
    requires FileEntry(e, if ch == [] then 0 else ch[0], |data|)
    requires Hung(v.g, v.fat, v.Tree()[dir.slot].clusters, c, fat1) && c !in ch
    requires (ch != [] ==> Chain(v.g, fat1, ch[0]) == Some(ch))
    ensures Prepared(v.g, v.disk, v.fat, v.depth, v.Tree(), x, fat1,
                     FileWrites(v.g, ch, data) + ClusterWrites(v.g, c, Zeros(SECTOR)), e, dir.slot, c,
                     FileNode(e, ch, data), v.depth)
    ensures x.dir == dir.slot && x.c == c
  {
    hide Full, Hung, Apply, Nodes, DiskTable, AllSlots, ChainSectors, DataWrites, Chain, Needed, Allocated, Classify,
         NoEndBefore, Staged, WellFormed, Finished, Stage, FileWrites, ClusterWrites, Audited, After, Before, Located,
         WithZeros, DepthAfter;
    v.HealthyBasics();
    HungBasics(v.g, v.fat, v.Tree()[dir.slot].clusters, c, fat1);
    x := ExtendOf(v, dir, WithZeros(v.g, FileWrites(v.g, ch, data), c), fat1, c, e);
    MustGrowFull(v, t, dir, x);
    FileExtends(v, t, dir, x, ch, fatM, data);
    StagedBasics(x);
    FreshSlot(v, c);
    ZerosSplit(v.g, FileWrites(v.g, ch, data), c);
  }

  lemma ZerosSplit(g: Geometry, writes: seq<Event>, c: nat)
    ensures WithZeros(g, writes, c) == (writes + ClusterWrites(g, c, Zeros(SECTOR))) + [Flush]
  {
  }

  lemma LastView(x: Extend)
    requires Staged(x) && Located(Publication(x))
    ensures |GrowthViews(x)| == 3 && GrowthViews(x)[2] == After(Publication(x))
  {
    hide Staged, Nodes, Located, After, Publication, Full;
  }

  // ----- A new directory ---------------------------------------------------------------------

  ghost function DirWrites(g: Geometry, k: nat, parent: nat): seq<Event>
    requires k < 0x1_0000 && parent < 0x1_0000
  {
    ClusterWrites(g, k, DirSector(k, parent))
  }

  lemma FreshDirectory(g: Geometry, fat: seq<byte>, k: nat, parent: nat, c: nat)
    requires IsTable(g, fat) && IsFree(g, fat, k) && k != c && k < 0x1_0000 && parent < 0x1_0000
    ensures Fresh(g, fat, DirWrites(g, k, parent), c)
  {
  }

  lemma DirectoryExtends(v: FatVolume, t: Target, dir: Dir, x: Extend, k: nat)
    requires MustGrow(v, t, dir) && IsFree(v.g, v.fat, k) && k != x.c && k < 0x1_0000 && dir.first < 0x1_0000
    requires x == ExtendOf(v, dir, WithZeros(v.g, DirWrites(v.g, k, dir.first), x.c), x.fat1, x.c, x.entry)
    requires Full(x) && Hung(v.g, v.fat, Chain0(x), x.c, x.fat1) && Chain(v.g, x.fat1, k) == Some([k])
    requires DirectoryEntry(x.entry, k)
    ensures Staged(x) && WellFormed(Publication(x))
    ensures After(Publication(x)) == Grown(x)[NewSlot(x) := DirNode(x.entry, [k])]
    ensures DepthAfter(Publication(x)) == v.depth + 1
    ensures Budget.Burden(x.g, Budget.Final(Publication(x)), After(Publication(x)), NewSlot(x)) == Budget.NEW_DIRECTORY
  {
    hide Full, Hung, Apply, Nodes, WithZeros, DiskTable, AllSlots, Chain, Classify, Staged, Grown, WellFormed, Finished,
         DirSector, ClusterWrites;
    var writes := DirWrites(v.g, k, dir.first);
    v.HealthyBasics();
    FreshDirectory(v.g, v.fat, k, dir.first, x.c);
    MustGrowFull(v, t, dir, x);
    ExtendStaged(v, t, dir, x, writes);
    StagedBasics(x);
    ClusterWritesApplied(x.d, v.g, k, DirSector(k, dir.first), 0);
    ExtendedDirectory(x, k);
    PublicationCommits(x);
    PublicationStages(x);
    Budget.NewListing(x.g, Finished(x), k, k, dir.first);
  }

  /** Make a directory in a full directory: both clusters are allocated together and
      separated before anything is written. */
  method MakeGrowing(v: FatVolume, t: Target, dir: Dir, e: Entry, k: nat, c: nat, fat1: seq<byte>)
    returns (error: FsError, ghost views: seq<map<Slot, Node>>)
    requires MustGrow(v, t, dir) && !v.started && DirectoryEntry(e, k) && 0 < k < 0x1_0000 && dir.first < 0x1_0000
    requires IsFree(v.g, v.fat, k) && k != c && Hung(v.g, v.fat, v.Tree()[dir.slot].clusters, c, fat1)
    requires IsTable(v.g, fat1) && Chain(v.g, fat1, k) == Some([k])
    modifies v`cache, v`disk, v`trace, v`started, v`fat, v`faulted, v`depth
    ensures v.Mounted() && old(v.trace) <= v.trace && v.Synced(old(v.disk), old(v.trace))
    ensures Grew(v, old(v.disk), old(v.trace), old(v.Tree()), old(v.depth) + 1, views)
    ensures error == Ok ==> v.Healthy() && EndsAt(views, v.Tree())
    ensures error == Ok ==>
      v.Healthy() && Slot(Data(c, 0), 0) !in old(v.Tree()) && var dirNode := old(v.Tree())[dir.slot];
      v.Tree() ==
        old(v.Tree())[dir.slot := DirNode(dirNode.entry, dirNode.clusters + [c])]
        [Slot(Data(c, 0), 0) := DirNode(e, [k])]
    ensures error == Ok ==> v.Load() == old(v.Load()) + 2 + Budget.NEW_DIRECTORY
    ensures error != Ok && !v.faulted ==> v.Healthy() && v.disk == old(v.disk) && v.Tree() == old(v.Tree())
    ensures v.depth == if error == Ok then old(v.depth) + 1 else old(v.depth)
  {
    hide Full, Hung, Apply, Nodes, DiskTable, AllSlots, Chain, Classify, NoEndBefore, Staged, WellFormed, Finished,
         Stage, DirWrites, ClusterWrites, Audited, Grew, v.Synced, Issued, Quiet, Prepared, IsFree, NewNodeAt,
         Entries.Entries;
    v.HealthyBasics();
    ghost var writes := DirWrites(v.g, k, dir.first) + ClusterWrites(v.g, c, Zeros(SECTOR));
    ghost var x := PrepareDirectory(v, t, dir, e, k, c, fat1);
    error := StageBoth(v, k, dir.first, c);
    error, views := CompleteGrowth(v, Slot(Data(c, 0), 0), e, fat1, error, old(v.disk), old(v.trace), old(v.Tree()),
                                   v.depth + 1, writes, x, DirNode(e, [k]));
    NewNodeIs(old(v.Tree()), dir.slot, c, DirNode(e, [k]));
  }

  lemma PrepareDirectory(v: FatVolume, t: Target, dir: Dir, e: Entry, k: nat, c: nat, fat1: seq<byte>)
    returns (x: Extend)
    requires MustGrow(v, t, dir) && DirectoryEntry(e, k) && 0 < k < 0x1_0000 && dir.first < 0x1_0000
    requires IsFree(v.g, v.fat, k) && k != c && Hung(v.g, v.fat, v.Tree()[dir.slot].clusters, c, fat1)
    requires IsTable(v.g, fat1) && Chain(v.g, fat1, k) == Some([k])
    ensures Prepared(v.g, v.disk, v.fat, v.depth, v.Tree(), x, fat1,
                     DirWrites(v.g, k, dir.first) + ClusterWrites(v.g, c, Zeros(SECTOR)), e, dir.slot, c,
                     DirNode(e, [k]), v.depth + 1)
    ensures x.dir == dir.slot && x.c == c
  {
    hide Full, Hung, Apply, Nodes, DiskTable, AllSlots, Chain, Classify, NoEndBefore, Staged, WellFormed, Finished,
         Stage, DirWrites, ClusterWrites, Audited, After, Before, Located, DirSector, DepthAfter, WithZeros, IsFree;
    v.HealthyBasics();
    HungBasics(v.g, v.fat, v.Tree()[dir.slot].clusters, c, fat1);
    x := ExtendOf(v, dir, WithZeros(v.g, DirWrites(v.g, k, dir.first), c), fat1, c, e);
    MustGrowFull(v, t, dir, x);
    DirectoryExtends(v, t, dir, x, k);
    StagedBasics(x);
    FreshSlot(v, c);
    ZerosSplit(v.g, DirWrites(v.g, k, dir.first), c);
  }

  method StageBoth(v: FatVolume, k: nat, parent: nat, c: nat) returns (error: FsError)
    requires v.Mounted() && 0 < k < 0x1_0000 && parent < 0x1_0000
    modifies v`cache, v`disk, v`trace, v`started
    ensures v.Steady(old(v.started), old(v.disk), old(v.trace))
    ensures v.Mounted() && error in {Ok, IoError}
    ensures Issued(old(v.trace), v.trace, DirWrites(v.g, k, parent) + ClusterWrites(v.g, c, Zeros(SECTOR)), error)
    ensures error == Ok ==>
      v.started && v.disk == Apply(old(v.disk), DirWrites(v.g, k, parent) + ClusterWrites(v.g, c, Zeros(SECTOR)))
  {
    hide Apply, ClusterWrites, DirSector, Issued;
    ghost var zeros := ClusterWrites(v.g, c, Zeros(SECTOR));
    error := ZeroCluster(v, k, k, parent);
    if error != Ok {
      IssuedPart(old(v.trace), v.trace, DirWrites(v.g, k, parent), zeros, error);
      return;
    }
    ghost var t1 := v.trace;
    error := ZeroCluster(v, c, 0, 0);
    IssuedThen(old(v.trace), t1, v.trace, DirWrites(v.g, k, parent), zeros, error);
    ApplyConcat(old(v.disk), DirWrites(v.g, k, parent), ClusterWrites(v.g, c, Zeros(SECTOR)));
  }

  /** Create a directory: refuse an existing name, allocate, then stage, install and publish. */
  method Mkdir(v: FatVolume, t: Target, dir: Dir, name: string, ghost b: nat)
    returns (error: FsError, ghost slot: Slot, ghost node: Node, ghost c: nat, ghost views: seq<map<Slot, Node>>)
    requires v.Healthy() && !v.started && IsDir(v.Tree(), dir)
    requires Path.BaseOf(name, b) && Path.Canonical(name)
    requires !t.found ==> if t.grow then MustGrow(v, t, dir) else CanCreate(v, t, dir)
    modifies v`cache, v`disk, v`trace, v`started, v`fat, v`faulted, v`depth
    ensures v.Mounted() && old(v.trace) <= v.trace && v.Synced(old(v.disk), old(v.trace))
    ensures Grew(v, old(v.disk), old(v.trace), old(v.Tree()), old(v.depth) + 1, views)
    ensures error == Ok ==> v.Healthy() && EndsAt(views, v.Tree())
    ensures t.found ==> error == Exists && v.disk == old(v.disk) && v.trace == old(v.trace)
    ensures error == Ok ==>
      v.Healthy() && node.DirNode? && ShortName(node.entry) == Name(name) && !Passed(node.entry) && |node.clusters| == 1
    ensures error == Ok && !t.grow ==> slot == t.slot && v.Tree() == old(v.Tree())[slot := node]
    ensures error == Ok && t.grow ==>
      dir.SubDir? && slot == Slot(Data(c, 0), 0) && slot !in old(v.Tree()) && var dirNode := old(v.Tree())[dir.slot];
      v.Tree() == old(v.Tree())[dir.slot := DirNode(dirNode.entry, dirNode.clusters + [c])][slot := node]
    ensures error != Ok && !v.faulted ==> v.Healthy() && v.disk == old(v.disk) && v.Tree() == old(v.Tree())
    ensures error == Ok ==> v.Load() <= old(v.Load()) + (if t.grow then 2 else 1) + Budget.NEW_DIRECTORY
    ensures v.depth == if error == Ok then old(v.depth) + 1 else old(v.depth)
    ensures !t.found && !t.grow ==> slot == t.slot
    ensures !t.found && !t.grow ==>
      AtomicRun(v.g, old(v.disk), v.trace[|old(v.trace)|..], old(v.depth) + 1, old(v.Tree()),
                old(v.Tree())[slot := node])
  {
    hide Nodes, DiskTable, Audited, Classify, EntryAt, DirSlots, RootSlots, AllSlots, NoEndBefore, Allocated, AtomicRun,
         FreeClusters, Chain, ShortName, Path.BaseOf, Path.Canonical, Hung, Passed, Grew, v.Synced;
    v.HealthyBasics();
    slot, c, node, views := t.slot, 0, DirNode(t.entry, []), [v.Tree(), v.Tree()];
    v.QuietIsSynced(v.disk, v.trace);
    NothingGrew(v, v.depth + 1);
    if t.found { return Exists, slot, node, c, views; }
    NothingYet(v, v.Tree()[slot := node]);
    assert v.trace[|v.trace|..] == [];
    var noMemory: bool := *;
    if noMemory { return NoMemory, slot, node, c, views; }
    var fatM, k;
    ghost var ch;
    error, fatM, k, ch := Allocate(v.g, v.fat, if t.grow then 2 else 1);
    if error != Ok { return; }
    if t.grow {
      error, slot, node, c, views := MkdirGrowing(v, t, dir, name, b, fatM, k, ch);
    } else {
      assert ch == [k];
      error, node := MkdirHere(v, t, dir, name, b, fatM, k);
      views := [old(v.Tree()), old(v.Tree())[slot := node]];
      HereGrew(v, old(v.disk), old(v.trace), old(v.Tree()), old(v.depth) + 1, views[1]);
    }
  }

  lemma HereGrew(v: FatVolume, d0: Disk, t0: seq<Event>, before: map<Slot, Node>, depth: nat, after: map<Slot, Node>)
    requires v.g.Valid() && t0 <= v.trace && AtomicRun(v.g, d0, v.trace[|t0|..], depth, before, after)
    ensures Grew(v, d0, t0, before, depth, [before, after])
  {
    hide AtomicRun, SomeCopyRun, BothCopiesRun;
    AtomicHasCopy(v.g, d0, v.trace[|t0|..], depth, before, after);
  }

  lemma NothingYet(v: FatVolume, after: map<Slot, Node>)
    requires v.Healthy()
    ensures AtomicRun(v.g, v.disk, [], v.depth + 1, v.Tree(), after)
  {
    hide Nodes, DiskTable, Exclusive;
    NothingIssued(v.g, v.disk, v.fat, v.depth, v.depth + 1, [], after);
  }

  method MakeEntry(name: string, directory: bool, first: nat, ghost b: nat) returns (e: Entry)
    requires Path.BaseOf(name, b) && Path.Canonical(name) && first < 0x1_0000
    ensures e == NewEntry(name, b, directory, first, 0)
    ensures Classify(e) == Used && (DirectoryBit(e) <==> directory) && First(e) == first && Size(e) == 0
    ensures ShortName(e) == Name(name) && !Passed(e)
  {
    hide Classify, ShortName;
    AsciiName(name, b);
    var field := FillName(name, b);
    var blank: Entry := field + [if directory then 0x10 else 0x20] + Zeros(20);
    e := Put32(Put16(Stamp(blank), 26, first), 28, 0);
    NewEntryUsed(name, b, directory, first, 0);
    NewEntryName(name, b, e);
  }

  method MkdirHere(v: FatVolume, t: Target, dir: Dir, name: string, ghost b: nat, fat1: seq<byte>, k: nat)
    returns (error: FsError, ghost node: Node)
    requires CanCreate(v, t, dir) && !v.started && Path.BaseOf(name, b) && Path.Canonical(name)
    requires Allocated(v.g, v.fat, [k], fat1)
    modifies v`cache, v`disk, v`trace, v`started, v`fat, v`faulted, v`depth
    ensures v.Mounted() && old(v.trace) <= v.trace
    ensures error == Ok ==>
      v.Healthy() && node.DirNode? && ShortName(node.entry) == Name(name) && !Passed(node.entry) && |node.clusters| == 1
    ensures error == Ok ==> v.Tree() == old(v.Tree())[t.slot := node]
    ensures error != Ok && !v.faulted ==> v.Healthy() && v.disk == old(v.disk) && v.Tree() == old(v.Tree())
    ensures error == Ok ==> v.Load() <= old(v.Load()) + 1 + Budget.NEW_DIRECTORY
    ensures v.depth == if error == Ok then old(v.depth) + 1 else old(v.depth)
    ensures v.Synced(old(v.disk), old(v.trace))
    ensures AtomicRun(v.g, old(v.disk), v.trace[|old(v.trace)|..], old(v.depth) + 1, old(v.Tree()),
                      old(v.Tree())[t.slot := node])
  {
    hide Nodes, DiskTable, Audited, Classify, EntryAt, DirSlots, RootSlots, AllSlots, NoEndBefore, Allocated, AtomicRun,
         ShortName, Passed, Path.BaseOf, Path.Canonical, WellFormed, Stage, Plan, Before, After, Located, Issued,
         DepthAfter, NewEntry, DirectoryOf, v.Synced, Quiet, Entries.Entries, Budget.Burden;
    v.HealthyBasics();
    AllocatedMembers(v.g, v.fat, [k], fat1);
    assert k in [k];
    var e := MakeEntry(name, true, k, b);
    node := DirNode(e, [k]);
    DirectoryIsOne(v, t, dir, e, fat1, k);
    ghost var m := DirectoryOf(v, t, dir, e, fat1, k);
    DirectoryFields(v, t, dir, e, fat1, k);
    Basics(m);
    error := MakeHere(v, t, dir, e, fat1, k, m);
    IssuedRun(old(v.trace), v.trace, Plan(m), error);
    PrefixAtomic(m, v.trace[|old(v.trace)|..]);
    v.MutationSynced(m, old(v.trace), error);
    if error == Ok {
      v.depth := v.depth + 1;
      v.Performed(m);
      DirectoryLoad(v, m);
    }
  }

  lemma DirectoryLoad(v: FatVolume, m: Mutation)
    requires WellFormed(m) && v.Healthy() && v.Tree() == After(m) && v.g == m.g && v.disk == Stage(m, BATCHES)
    requires Budget.Burden(m.g, Budget.Final(m), After(m), Crash.Target(m)) == Budget.NEW_DIRECTORY
    ensures v.Load() <= Entries.Entries(m.g, m.d, Before(m)) + 1 + Budget.NEW_DIRECTORY
  {
    hide WellFormed, Stage, Batch, Nodes, DiskTable, After, Entries.Entries, Classify, EntryAt, Listing, Before,
         Budget.Burden;
    v.LoadAfter(m);
  }

  lemma DirectoryFields(v: FatVolume, t: Target, dir: Dir, e: Entry, fat1: seq<byte>, c: nat)
    requires Skip(dir) <= t.cursor && c < 0x1_0000 && FirstOf(dir) < 0x1_0000
    ensures var m := DirectoryOf(v, t, dir, e, fat1, c);
      m.g == v.g && m.d == v.disk && m.fat == v.fat && m.depth == v.depth && m.fat2 == fat1
  {
  }

  method MkdirGrowing(v: FatVolume, t: Target, dir: Dir, name: string, ghost b: nat, fatM: seq<byte>, k: nat,
                      ghost ch: seq<nat>)
    returns (error: FsError, ghost slot: Slot, ghost node: Node, ghost c: nat, ghost views: seq<map<Slot, Node>>)
    requires MustGrow(v, t, dir) && !v.started && Path.BaseOf(name, b) && Path.Canonical(name)
    requires Allocated(v.g, v.fat, ch, fatM) && |ch| == 2 && k == ch[0]
    modifies v`cache, v`disk, v`trace, v`started, v`fat, v`faulted, v`depth
    ensures v.Mounted() && old(v.trace) <= v.trace && v.Synced(old(v.disk), old(v.trace))
    ensures Grew(v, old(v.disk), old(v.trace), old(v.Tree()), old(v.depth) + 1, views)
    ensures error == Ok ==> v.Healthy() && EndsAt(views, v.Tree())
    ensures error == Ok ==>
      v.Healthy() && node.DirNode? && ShortName(node.entry) == Name(name) && !Passed(node.entry) && |node.clusters| == 1
    ensures error == Ok ==>
      slot == Slot(Data(c, 0), 0) && slot !in old(v.Tree()) && var dirNode := old(v.Tree())[dir.slot];
      v.Tree() == old(v.Tree())[dir.slot := DirNode(dirNode.entry, dirNode.clusters + [c])][slot := node]
    ensures error != Ok && !v.faulted ==> v.Healthy() && v.disk == old(v.disk) && v.Tree() == old(v.Tree())
    ensures error == Ok ==> v.Load() == old(v.Load()) + 2 + Budget.NEW_DIRECTORY
    ensures v.depth == if error == Ok then old(v.depth) + 1 else old(v.depth)
  {
    hide Nodes, DiskTable, Audited, Classify, EntryAt, DirSlots, RootSlots, AllSlots, NoEndBefore, Allocated, ShortName,
         Passed, Chain, Hung, Full, Path.BaseOf, Path.Canonical, NewEntry, Grew, v.Synced;
    v.HealthyBasics();
    ghost var x := ExtendOf(v, dir, [], v.fat, 0, t.entry);
    MustGrowFull(v, t, dir, x);
    ghost var dch := Chain0(x);
    c := ch[1];
    assert ch == [k, c];
    HungApart(v.g, v.fat, k, c, fatM, dch, dir.first);
    DirFirstBound(v, dir);
    var extra := Next(v.g, fatM, k);
    var apart := Link(v.g, fatM, k, END_MARK);
    var last := v.ClusterAt(dir.first, dir.length - 1, dch);
    var fat1 := Link(v.g, apart, last, extra);
    var e := MakeEntry(name, true, k, b);
    slot, node := Slot(Data(c, 0), 0), DirNode(e, [k]);
    error, views := MakeGrowing(v, t, dir, e, k, extra, fat1);
  }

  lemma DirFirstBound(v: FatVolume, dir: Dir)
    requires v.Healthy() && IsDir(v.Tree(), dir)
    ensures dir.SubDir? ==> dir.first < 0x1_0000
  {
  }
}
