/** A small volume with one full directory, at which the limits of two guarantees show: a
    directory that grows across two table sectors, and a volume at the audit's entry limit. */
module Sample {
  import opened Common
  import opened Disk
  import opened Fat
  import opened Layout
  import opened Tree
  import opened View
  import opened Entries
  import opened Commit
  import opened Crash
  import opened Mutations
  import opened Extension
  import opened GrowthCrash
  import Budget
  import Audit
  import Backend

  /** One-sector clusters, a table of sixteen sectors and `roots` sectors of root directory. */
  function Shape(roots: nat): Geometry {
    Geometry(33 + roots + MIN_CLUSTERS, MIN_CLUSTERS, 1, 1, 16, ENTRIES_PER_SECTOR * roots)
  }

  // ----- Sectors -------------------------------------------------------------------------------

  /** `n` deleted entries. */
  function Gone(n: nat): (r: seq<byte>)
    ensures |r| == ENTRY * n
  {
    seq(ENTRY * n, i requires 0 <= i => if i % ENTRY == 0 then DELETED else 0)
  }

  /** An entry that names cluster `first` as a directory, or an empty file. */
  function Named(directory: bool, first: nat): (e: Entry)
    requires first < 0x1_0000
    ensures Classify(e) == Used && DirectoryBit(e) == directory && First(e) == first && Size(e) == 0
  {
    var blank: Entry := seq(32, i requires 0 <= i =>
      if i == 0 then 65 else if i == 11 then (if directory then 0x10 else 0x20) else if i < 11 then 32 else 0);
    var e: Entry := Put16(blank, 26, first);
    assert e[0] == 65 && e[11] == (if directory then 0x10 else 0x20) && U16(e, 20) == 0;
    e
  }

  function RootHead(): Sector { Named(true, 2) + Gone(15) }
  function RootRest(): Sector { Gone(16) }
  function DirHead(): Sector { NewDot(false, 2) + NewDot(true, 0) + Gone(14) }
  function Taken(): Sector { seq(SECTOR, i => 0xff) }

  /** Clusters 2 to 255 are in use; cluster 2 is the directory named by the first root slot. */
  function Image(roots: nat): Disk {
    (map i: nat | i < roots :: Root(i) := RootRest())
    [Root(0) := RootHead()][Data(2, 0) := DirHead()][Table(0, 0) := Taken()][Table(1, 0) := Taken()]
  }

  function Fats(roots: nat): seq<byte> { DiskTable(Shape(roots), Image(roots), 0) }

  const TOP := Slot(Root(0), 0)

  predicate Sized(roots: nat) { 1 <= roots <= 4095 }

  lemma ShapeValid(roots: nat)
    requires Sized(roots)
    ensures Shape(roots).Valid() && Shape(roots).RootSectors() == roots && IsTable(Shape(roots), Fats(roots))
  {
    assert (ENTRIES_PER_SECTOR * roots) / ENTRIES_PER_SECTOR == roots;
    assert (ENTRIES_PER_SECTOR * roots) % ENTRIES_PER_SECTOR == 0;
  }

  lemma GoneAt(before: seq<byte>, n: nat, k: nat)
    requires |before| % ENTRY == 0 && k < n
    ensures var s := before + Gone(n); var at := |before| + ENTRY * k;
      at + ENTRY <= |s| && s[at..at + ENTRY][0] == DELETED
  {
    assert (ENTRY * k) % ENTRY == 0;
  }

  // ----- The table ---------------------------------------------------------------------------------

  lemma FatEntry(roots: nat, c: nat)
    requires Sized(roots) && ValidCluster(Shape(roots), c)
    ensures IsTable(Shape(roots), Fats(roots)) && Next(Shape(roots), Fats(roots), c) == if c < 256 then END_MARK else 0
  {
    ShapeValid(roots);
    var fat := Fats(roots);
    assert (2 * c) / SECTOR == 0 <==> c < 256;
    assert (2 * c + 1) / SECTOR == (2 * c) / SECTOR;
    if c < 256 {
      assert fat[2 * c] == 0xff && fat[2 * c + 1] == 0xff;
    } else {
      assert fat[2 * c] == 0 && fat[2 * c + 1] == 0;
    }
  }

  lemma SameTables(roots: nat)
    requires Sized(roots)
    ensures DiskTable(Shape(roots), Image(roots), 0) == Fats(roots) == DiskTable(Shape(roots), Image(roots), 1)
  {
    forall i
      ensures At(Image(roots), Table(1, i)) == At(Image(roots), Table(0, i))
    {
    }
  }

  lemma TopChain(roots: nat)
    requires Sized(roots)
    ensures IsTable(Shape(roots), Fats(roots)) && Chain(Shape(roots), Fats(roots), 2) == Some([2])
  {
    ShapeValid(roots);
    FatEntry(roots, 2);
    ChainExactly(Shape(roots), Fats(roots), 2, [2]);
  }

  // ----- The directories ------------------------------------------------------------------------------

  lemma RootEntry(roots: nat, i: nat)
    requires Sized(roots) && i < |RootSlots(Shape(roots))|
    ensures var s := RootSlots(Shape(roots))[i]; s == Slot(Root(i / ENTRIES_PER_SECTOR), i % ENTRIES_PER_SECTOR)
    ensures i > 0 ==> EntryAt(Image(roots), RootSlots(Shape(roots))[i])[0] == DELETED
    ensures i == 0 ==> EntryAt(Image(roots), RootSlots(Shape(roots))[i]) == Named(true, 2)
  {
    hide Named, Gone;
    ShapeValid(roots);
    var k := i % ENTRIES_PER_SECTOR;
    if i < ENTRIES_PER_SECTOR {
      assert RootHead()[..32] == Named(true, 2);
      if i > 0 { GoneAt(Named(true, 2), 15, i - 1); }
    } else {
      assert [] + Gone(16) == Gone(16);
      GoneAt([], 16, k);
    }
  }

  lemma DirEntry(roots: nat, i: nat)
    requires Sized(roots) && i < 16
    ensures DirSlots(Shape(roots), [2])[..16] == DirSlots(Shape(roots), [2]) && |DirSlots(Shape(roots), [2])| == 16
    ensures DirSlots(Shape(roots), [2])[i] == Slot(Data(2, 0), i)
    ensures
      EntryAt(Image(roots), Slot(Data(2, 0), i)) == (if i == 0 then NewDot(false, 2) else NewDot(true, 0)) || i >= 2
    ensures i >= 2 ==> EntryAt(Image(roots), Slot(Data(2, 0), i))[0] == DELETED
  {
    hide NewDot, Gone;
    OneCluster(Shape(roots), 2);
    var dots := NewDot(false, 2) + NewDot(true, 0);
    assert DirHead() == dots + Gone(14);
    if i == 0 {
      assert DirHead()[0..32] == NewDot(false, 2);
    } else if i == 1 {
      assert DirHead()[32..64] == NewDot(true, 0);
    } else {
      GoneAt(dots, 14, i - 2);
    }
  }

  lemma GoneIsSkipped(e: Entry)
    requires e[0] == DELETED
    ensures Classify(e) == Skipped
  {
  }

  lemma {:induction false} AllSkipped(g: Geometry, d: Disk, fat: seq<byte>, slots: seq<Slot>, self: nat, depth: nat)
    requires g.perCluster > 0 && IsTable(g, fat)
    requires forall i :: 0 <= i < |slots| ==> EntryAt(d, slots[i])[0] == DELETED
    ensures Live(g, d, fat, slots, self, depth) == Some({})
    decreases |slots|
  {
    hide Classify, EntryAt, Held;
    if slots != [] {
      GoneIsSkipped(EntryAt(d, slots[0]));
      assert forall i :: 0 <= i < |slots[1..]| ==> slots[1..][i] == slots[i + 1];
      AllSkipped(g, d, fat, slots[1..], self, depth);
    }
  }

  lemma TopNode(roots: nat)
    requires Sized(roots)
    ensures Shape(roots).perCluster > 0 && IsTable(Shape(roots), Fats(roots))
    ensures NodeAt(Shape(roots), Image(roots), Fats(roots), TOP) == Some(DirNode(Named(true, 2), [2]))
  {
    hide Named, Chain, Fats, Image, EntryAt, DirSlots;
    ShapeValid(roots);
    TopChain(roots);
    RootEntry(roots, 0);
    OneCluster(Shape(roots), 2);
  }

  lemma TopDots(roots: nat)
    requires Sized(roots)
    ensures DotsRight(Image(roots), DirSlots(Shape(roots), [2]), 2, 0)
  {
    hide DirSlots, Image, EntryAt, NewDot, DotEntry;
    DirEntry(roots, 0);
    DirEntry(roots, 1);
  }

  lemma TopHeld(roots: nat, depth: nat)
    requires Sized(roots) && depth > 0
    ensures Shape(roots).perCluster > 0 && IsTable(Shape(roots), Fats(roots))
    ensures Held(Shape(roots), Image(roots), Fats(roots), TOP, 0, depth) == Some({TOP})
  {
    hide Named, Fats, Image, EntryAt, DirSlots, NodeAt, DotsRight, Live;
    var g, d, fat := Shape(roots), Image(roots), Fats(roots);
    TopNode(roots);
    TopDots(roots);
    NodeEntry(g, d, fat, TOP);
    var slots := DirSlots(g, [2]);
    DirEntry(roots, 0);
    forall i | 0 <= i < |AfterDots(slots)|
      ensures EntryAt(d, AfterDots(slots)[i])[0] == DELETED
    {
      DirEntry(roots, i + 2);
    }
    AllSkipped(g, d, fat, AfterDots(slots), 2, depth - 1);
    assert {TOP} + {} == {TOP};
  }

  /** The whole volume: one directory and nothing in it. */
  lemma SampleTree(roots: nat)
    requires Sized(roots)
    ensures Audited(Shape(roots), Image(roots), Fats(roots), PATH_DEPTH)
    ensures Nodes(Shape(roots), Image(roots), Fats(roots), PATH_DEPTH) == Some(map[TOP := DirNode(Named(true, 2), [2])])
  {
    hide Named, Fats, Image, EntryAt, DirSlots, NodeAt, DotsRight, RootSlots, Classify, Held;
    var g, d, fat := Shape(roots), Image(roots), Fats(roots);
    ShapeValid(roots);
    TopHeld(roots, PATH_DEPTH);
    TopNode(roots);
    var slots := RootSlots(g);
    RootCount(roots);
    RootEntry(roots, 0);
    forall i | 0 <= i < |slots[1..]|
      ensures EntryAt(d, slots[1..][i])[0] == DELETED
    {
      RootEntry(roots, i + 1);
    }
    AllSkipped(g, d, fat, slots[1..], 0, PATH_DEPTH);
    assert {TOP} + {} == {TOP};
    assert LiveTree(g, d, fat, PATH_DEPTH) == Some({TOP});
    assert NodesOf(g, d, fat, {TOP}) == map[TOP := DirNode(Named(true, 2), [2])];
  }

  lemma RootCount(roots: nat)
    requires Sized(roots)
    ensures |RootSlots(Shape(roots))| == ENTRIES_PER_SECTOR * roots > 0
  {
    ShapeValid(roots);
  }

  // ----- A directory that grows across two table sectors -------------------------------------------

  const NEXT := 256 // the first free cluster, whose entry opens the table's second sector

  /** Creating an empty file in the full directory. */
  ghost function Growing(): Extend
  {
    ShapeValid(1);
    FatEntry(1, NEXT);
    var g, d, fat := Shape(1), Image(1), Fats(1);
    Extend(g, d, fat, PATH_DEPTH, TOP, ClusterWrites(g, NEXT, Zeros(SECTOR)) + [Flush],
           Link(g, Link(g, fat, NEXT, END_MARK), 2, NEXT), NEXT, Named(false, 0))
  }

  lemma GrowingFull()
    ensures Full(Growing()) && Chain0(Growing()) == [2]
  {
    hide Named, Fats, Image, EntryAt, DirSlots, Nodes, DiskTable, Link, NewDot, Exclusive;
    SampleTree(1);
    SameTables(1);
    DirEntry(1, 0);
    forall i | 0 <= i < 16
      ensures EntryAt(Image(1), Slot(Data(2, 0), i))[0] != 0 && DirSlots(Shape(1), [2])[i] == Slot(Data(2, 0), i)
    {
      DirEntry(1, i);
      DotBytes(2, 0);
    }
  }

  lemma DotBytes(self: nat, parent: nat)
    requires self < 0x1_0000 && parent < 0x1_0000
    ensures NewDot(false, self)[0] != 0 && NewDot(true, parent)[0] != 0
  {
  }

  lemma GrowingHung()
    ensures var x := Growing(); IsTable(x.g, x.fat) && Hung(x.g, x.fat, [2], NEXT, x.fat1) && IsFree(x.g, x.fat, NEXT)
  {
    hide Fats, Link, Named;
    ShapeValid(1);
    FatEntry(1, NEXT);
    FatEntry(1, 2);
  }

  /** The volume is a real input: everything staged, the publication well formed, and the two
      changed table entries in different sectors. */
  lemma GrowingStaged()
    ensures Staged(Growing()) && WellFormed(Publication(Growing())) && !OneSector(Growing())
  {
    hide Named, Fats, Image, EntryAt, DirSlots, Nodes, DiskTable, Link, Full, Hung, Apply, ClusterWrites, Leaf,
         WellFormed, Finished, NodeAt, Content, ChainSectors;
    var x := Growing();
    GrowingFull();
    GrowingHung();
    ClusterBatchShape(x.g, x.fat, NEXT, Zeros(SECTOR));
    forall i | 0 <= i < x.g.perCluster
      ensures At(Apply(x.d, x.data), Data(x.c, i)) == Zeros(SECTOR)
    {
      ClusterWritesApplied(x.d, x.g, NEXT, Zeros(SECTOR), i);
      ApplyFlushed(x.d, ClusterWrites(x.g, NEXT, Zeros(SECTOR)));
    }
    assert Staged(x);
    ExtendedFile(x, [], []);
    FileLeaf(x);
    PublicationCommits(x);
  }

  lemma FileLeaf(x: Extend)
    requires Staged(x) && NodeAt(x.g, Finished(x), x.fat1, NewSlot(x)).Some?
    requires NodeAt(x.g, Finished(x), x.fat1, NewSlot(x)).value.FileNode?
    ensures Leaf(x.g, Finished(x), x.fat1, NewSlot(x), First(Tree0(x)[x.dir].entry))
  {
    hide Staged, NodeAt, Finished, DotsRight, NoneUsed, DirSlots;
    StagedBasics(x);
  }

  /** So a power loss can leave a first copy of the table that describes no tree at all. */
  lemma TornSample() returns (n: nat, d: Disk)
    ensures var x := Growing();
      && Staged(x) && WellFormed(Publication(x))
      && n <= |GrowPlan(x)| && CrashState(x.d, GrowPlan(x)[..n], d)
      && (forall depth: nat :: Nodes(x.g, d, DiskTable(x.g, d, 0), depth) == None)
      && DiskTable(x.g, d, 0) != DiskTable(x.g, d, 1)
  {
    hide *;
    GrowingStaged();
    n, d := TornCrash(Growing());
  }

  // ----- A volume at the entry limit ------------------------------------------------------------------

  const ROOTS := 4095 // the largest root directory

  lemma SampleEntries()
    ensures
      Entries.Entries(Shape(ROOTS), Image(ROOTS), map[TOP := DirNode(Named(true, 2), [2])]) == Backend.WRITE_ENTRY_LIMIT
  {
    hide Named, Image, EntryAt, DirSlots, RootSlots, Classify, Extent, Weight, NewDot;
    var g, d, slots := Shape(ROOTS), Image(ROOTS), DirSlots(Shape(ROOTS), [2]);
    RootCount(ROOTS);
    forall i | 0 <= i < |RootSlots(g)|
      ensures Classify(EntryAt(d, RootSlots(g)[i])) != EndMark
    {
      RootEntry(ROOTS, i);
      if i > 0 { GoneIsSkipped(EntryAt(d, RootSlots(g)[i])); }
    }
    ExtentEnds(d, RootSlots(g), |RootSlots(g)|);
    DirEntry(ROOTS, 0);
    forall i | 0 <= i < |slots|
      ensures Classify(EntryAt(d, slots[i])) != EndMark
    {
      DirEntry(ROOTS, i);
      if i < 2 {
        DotIsOpen(NewDot(false, 2), false, 2);
        DotIsOpen(NewDot(true, 0), true, 0);
      } else {
        GoneIsSkipped(EntryAt(d, slots[i]));
      }
    }
    ExtentEnds(d, slots, |slots|);
    WeightOne(g, d, TOP, DirNode(Named(true, 2), [2]));
  }

  /** Making a directory in the second root slot, which holds a deleted entry. */
  ghost function Making(): Mutation
  {
    ShapeValid(ROOTS);
    FatEntry(ROOTS, NEXT);
    var g, d, fat := Shape(ROOTS), Image(ROOTS), Fats(ROOTS);
    var fat1 := Link(g, fat, NEXT, END_MARK);
    Mutation(g, d, fat, PATH_DEPTH, InRoot(1), ClusterWrites(g, NEXT, DirSector(NEXT, 0)) + [Flush], fat1,
             Named(true, NEXT), fat1)
  }

  lemma MakingAllocates()
    ensures var m := Making(); IsTable(m.g, m.fat) && Allocated(m.g, m.fat, [NEXT], m.fat1)
  {
    hide Fats, Link, Named, ClusterWrites, DirSector;
    ShapeValid(ROOTS);
    FatEntry(ROOTS, NEXT);
  }

  lemma MakingIsNew()
    ensures NewDirectory(Making(), NEXT)
    ensures Before(Making()) == map[TOP := DirNode(Named(true, 2), [2])]
    ensures Classify(EntryAt(Making().d, Target(Making()))) == Skipped
  {
    hide Named, Fats, Image, EntryAt, DirSlots, RootSlots, Nodes, DiskTable, Link, ClusterWrites, DirSector, Allocated,
         Exclusive, Classify;
    var m := Making();
    SampleTree(ROOTS);
    SameTables(ROOTS);
    RootCount(ROOTS);
    MakingAllocates();
    RootEntry(ROOTS, 0);
    RootEntry(ROOTS, 1);
    GoneIsSkipped(EntryAt(m.d, RootSlots(m.g)[1]));
    NamedOpen();
  }

  lemma NamedOpen()
    ensures Classify(Named(true, 2)) != EndMark
  {
  }

  /** The audit lets this volume through, the directory is made without a complaint, and the
      next audit refuses the volume. */
  lemma PastTheLimit()
    ensures var m := Making();
      && WellFormed(m) && Audit.Passes(m.g, m.d, m.fat, Backend.WRITE_ENTRY_LIMIT)
      && Entries.Entries(m.g, Budget.Final(m), After(m)) == Backend.WRITE_ENTRY_LIMIT + Budget.NEW_DIRECTORY
      && !Audit.Passes(m.g, Budget.Final(m), m.fat2, Backend.WRITE_ENTRY_LIMIT)
  {
    hide Named, Fats, Image, EntryAt, Nodes, DiskTable, Link, ClusterWrites, DirSector, Allocated, Exclusive, Classify,
         WellFormed, Entries.Entries, Budget.Final, After, Before, Located, Audited, NewDirectory, Budget.Burden;
    var m := Making();
    MakingIsNew();
    SampleTree(ROOTS);
    SampleEntries();
    Budget.NewDirectoryBurden(m, NEXT);
    Budget.EntriesAfter(m);
    MakingBurden();
    MakingFields();
    TooMany(m);
  }

  lemma MakingFields()
    ensures
      var m := Making(); m.g == Shape(ROOTS) && m.d == Image(ROOTS) && m.fat == Fats(ROOTS) && m.depth == PATH_DEPTH
  {
  }

  lemma MakingBurden()
    ensures var m := Making();
      Located(m) && Budget.Moved(m) == 0 && Budget.Burden(m.g, m.d, Before(m), Target(m)) == 0
  {
    hide Named, Fats, Image, EntryAt, Nodes, DiskTable, Link, ClusterWrites, DirSector, Allocated, Exclusive, Classify,
         DirSlots, RootSlots, Extent;
    MakingIsNew();
    RootEntry(ROOTS, 1);
  }

  lemma TooMany(m: Mutation)
    requires WellFormed(m) && m.depth == PATH_DEPTH
    requires Entries.Entries(m.g, Budget.Final(m), After(m)) > Backend.WRITE_ENTRY_LIMIT
    ensures !Audit.Passes(m.g, Budget.Final(m), m.fat2, Backend.WRITE_ENTRY_LIMIT)
  {
    hide WellFormed, Nodes, After, Budget.Final, Entries.Entries, Located, Exclusive;
    FinalTree(m);
  }

  /** Whatever depth shows a tree, it is the same one. */
  lemma FinalTree(m: Mutation)
    requires WellFormed(m) && m.depth == PATH_DEPTH
    ensures IsTable(m.g, m.fat2) && m.g.Valid()
    ensures Nodes(m.g, Budget.Final(m), m.fat2, PATH_DEPTH).Some? ==>
      Nodes(m.g, Budget.Final(m), m.fat2, PATH_DEPTH).value == After(m)
  {
    hide WellFormed, Stage, Nodes, DiskTable, After, Located, Audited, KeepsNew;
    Basics(m);
    LateStage(m, BATCHES);
    OwnTablesKeepNew(m);
    LateShows(m, Budget.Final(m), m.fat2);
    if Nodes(m.g, Budget.Final(m), m.fat2, PATH_DEPTH).Some? {
      Frame(m.g, Budget.Final(m), m.fat2, Budget.Final(m), m.fat2, PATH_DEPTH, DepthAfter(m));
    }
  }
}
