/** What a mutation does to the number of entries the next audit has to examine. */
module Budget {
  import opened Common
  import opened Disk
  import opened Fat
  import opened Layout
  import opened Tree
  import opened View
  import opened Entries
  import opened Commit
  import opened Crash
  import opened Growth
  import opened Mutations
  import opened Extension

  /** The volume once the mutation is complete. */
  ghost function Final(m: Mutation): Disk
    requires Located(m)
  {
    Stage(m, BATCHES)
  }

  /** A directory whose end mark is consumed has to be examined one entry further, unless
      that was its last slot. */
  ghost function Moved(m: Mutation): nat
    requires Located(m)
  {
    if Classify(EntryAt(m.d, Target(m))) == EndMark && m.place.index + 1 < |List(m)| then 1 else 0
  }

  /** What a node adds: its own listing, if it is a directory. */
  ghost function Burden(g: Geometry, d: Disk, nodes: map<Slot, Node>, s: Slot): nat {
    if s in nodes && nodes[s].DirNode? then Extent(d, DirSlots(g, nodes[s].clusters)) else 0
  }

  // ----- Entries after the mutation -----------------------------------------------------------

  lemma FinalEntry(m: Mutation, x: Slot)
    requires WellFormed(m) && (x.sector.Root? || (x.sector.Data? && !IsFree(m.g, m.fat, x.sector.cluster)))
    ensures Located(m) && EntryAt(Final(m), x) ==
      if x == Target(m) then m.entry
      else if ClearsNext(m) && x == List(m)[m.place.index + 1] then Zeros(32)
      else EntryAt(m.d, x)
  {
    hide WellFormed, Stage, Batch, Nodes, Classify, DiskTable, Located, Audited, List, Before, EntryChanged;
    Basics(m);
    TargetListed(m);
    Stage3(m);
    Stage4(m);
    ClearBatch(m);
    StageStep(m, 4);
    EntryBatchApplied(Stage(m, 4), Target(m), m.entry);
    if ClearsNext(m) { OtherEntries(Stage(m, 3), Stage(m, 4), List(m)[m.place.index + 1], Zeros(32), x); }
    OtherEntries(Stage(m, 4), Stage(m, 5), Target(m), m.entry, x);
    LateStage(m, 7);
  }

  lemma UsedSector(m: Mutation, n: Slot, i: nat)
    requires WellFormed(m) && n in Before(m) && Before(m)[n].DirNode? && i < |DirSlots(m.g, Before(m)[n].clusters)|
    ensures var a := DirSlots(m.g, Before(m)[n].clusters)[i].sector; a.Data? && !IsFree(m.g, m.fat, a.cluster)
  {
    hide Leaf, Stage, Batch, Live, NodeAt, DirSlots, RootSlots, Exclusive;
    NodesKeys(m.g, m.d, m.fat, m.depth);
    DirSlotsInChain(m.g, Before(m)[n].clusters, i);
    NodeChain(m.g, m.d, m.fat, n);
  }

  /** Neither the target nor the slot behind it belongs to another directory. */
  lemma ElsewhereKept(m: Mutation, n: Slot, i: nat)
    requires WellFormed(m) && n in Before(m) && Before(m)[n].DirNode? && i < |DirSlots(m.g, Before(m)[n].clusters)|
    requires i < 2 || m.place.InRoot? || m.place.dir != n
    ensures var x := DirSlots(m.g, Before(m)[n].clusters)[i]; EntryAt(Final(m), x) == EntryAt(m.d, x)
  {
    hide Leaf, Stage, Batch, Nodes, DirSlots, RootSlots, Exclusive, Final, EntryAt, Classify;
    var slots := DirSlots(m.g, Before(m)[n].clusters);
    UsedSector(m, n, i);
    FinalEntry(m, slots[i]);
    if i < 2 {
      NotADot(m.g, m.d, m.fat, m.depth, m.place, n, i);
      if ClearsNext(m) { NotADot(m.g, m.d, m.fat, m.depth, NextPlace(m), n, i); }
    } else {
      var here := InDir(n, i - 2);
      assert Listing(m.g, Before(m), here)[i - 2] == slots[i];
      if slots[i] == Target(m) { PlaceUnique(m.g, m.d, m.fat, m.depth, m.place, here); }
      if ClearsNext(m) && slots[i] == List(m)[m.place.index + 1] {
        PlaceUnique(m.g, m.d, m.fat, m.depth, NextPlace(m), here);
      }
    }
  }

  lemma ElsewhereExtent(m: Mutation, n: Slot)
    requires WellFormed(m) && n in Before(m) && Before(m)[n].DirNode? && (m.place.InRoot? || m.place.dir != n)
    ensures Burden(m.g, Final(m), Before(m), n) == Burden(m.g, m.d, Before(m), n)
  {
    hide WellFormed, Final, Nodes, DirSlots, Extent, EntryAt;
    Basics(m);
    forall i | 0 <= i < |DirSlots(m.g, Before(m)[n].clusters)|
      ensures EntryAt(Final(m), DirSlots(m.g, Before(m)[n].clusters)[i]) ==
        EntryAt(m.d, DirSlots(m.g, Before(m)[n].clusters)[i])
    {
      ElsewhereKept(m, n, i);
    }
    ExtentFrame(m.d, Final(m), DirSlots(m.g, Before(m)[n].clusters));
  }

  lemma RootKept(m: Mutation)
    requires WellFormed(m) && m.place.InDir?
    ensures Extent(Final(m), RootSlots(m.g)) == Extent(m.d, RootSlots(m.g))
  {
    hide WellFormed, Final, Nodes, DirSlots, Extent, EntryAt, RootSlots, Classify;
    Basics(m);
    forall i | 0 <= i < |RootSlots(m.g)|
      ensures EntryAt(Final(m), RootSlots(m.g)[i]) == EntryAt(m.d, RootSlots(m.g)[i])
    {
      RootSlotsInRoot(m.g, i);
      FinalEntry(m, RootSlots(m.g)[i]);
      DirSlotsInChain(m.g, Before(m)[m.place.dir].clusters, m.place.index + 2);
      if ClearsNext(m) { DirSlotsInChain(m.g, Before(m)[m.place.dir].clusters, m.place.index + 3); }
    }
    ExtentFrame(m.d, Final(m), RootSlots(m.g));
  }

  // ----- The listing that changes ----------------------------------------------------------------

  lemma ListEntry(m: Mutation, i: nat)
    requires WellFormed(m) && i < |List(m)|
    ensures EntryAt(Final(m), List(m)[i]) ==
      if i == m.place.index then m.entry
      else if ClearsNext(m) && i == m.place.index + 1 then Zeros(32)
      else EntryAt(m.d, List(m)[i])
  {
    hide WellFormed, Final, Nodes, EntryAt, Classify, RootSlots, DirSlots, AfterDots;
    Basics(m);
    ListSector(m, i);
    FinalEntry(m, List(m)[i]);
    if List(m)[i] == Target(m) { PlaceUnique(m.g, m.d, m.fat, m.depth, m.place, m.place.(index := i)); }
    if ClearsNext(m) && List(m)[i] == List(m)[m.place.index + 1] {
      PlaceUnique(m.g, m.d, m.fat, m.depth, NextPlace(m), m.place.(index := i));
    }
  }

  lemma NeverAnEnd(m: Mutation)
    requires WellFormed(m)
    ensures Classify(m.entry) != EndMark && Reached(m.d, List(m), m.place.index)
  {
    hide Nodes, Stage, Batch, Leaf, Classify, EntryAt, Listing, IsBatch;
  }

  lemma ListExtent(m: Mutation)
    requires WellFormed(m)
    ensures Extent(Final(m), List(m)) == Extent(m.d, List(m)) + Moved(m)
  {
    hide WellFormed, Final, Nodes, EntryAt, Classify, Listing, Before;
    Basics(m);
    NeverAnEnd(m);
    TargetListed(m);
    ZeroEntry();
    var list, i, d, f := List(m), m.place.index, m.d, Final(m);
    forall j | 0 <= j < i
      ensures Classify(EntryAt(f, list[j])) != EndMark
    {
      ListEntry(m, j);
    }
    ListEntry(m, i);
    ExtentFrom(d, list, i);
    ExtentFrom(f, list, i);
    var rest := list[i + 1..];
    assert list[i..][0] == list[i] && list[i..][1..] == rest;
    if Classify(EntryAt(d, list[i])) == EndMark {
      if rest != [] {
        ListEntry(m, i + 1);
        assert rest[0] == list[i + 1];
      }
    } else {
      forall j | 0 <= j < |rest|
        ensures EntryAt(f, rest[j]) == EntryAt(d, rest[j])
      {
        ListEntry(m, i + 1 + j);
      }
      ExtentFrame(d, f, rest);
    }
  }

  /** The two dot entries come before the listing. */
  lemma DotsExtent(d: Disk, slots: seq<Slot>)
    requires |slots| >= 2 && Classify(EntryAt(d, slots[0])) != EndMark && Classify(EntryAt(d, slots[1])) != EndMark
    ensures Extent(d, slots) == 2 + Extent(d, AfterDots(slots))
  {
    hide Classify, EntryAt;
    ExtentFrom(d, slots, 2);
  }

  lemma DotsOpen(d: Disk, slots: seq<Slot>, self: nat, parent: nat)
    requires DotsRight(d, slots, self, parent)
    ensures |slots| >= 2 && Classify(EntryAt(d, slots[0])) != EndMark && Classify(EntryAt(d, slots[1])) != EndMark
  {
    hide EntryAt;
  }

  lemma HereExtent(m: Mutation)
    requires WellFormed(m) && m.place.InDir?
    ensures m.place.dir in Before(m) && Before(m)[m.place.dir].DirNode?
    ensures Burden(m.g, Final(m), Before(m), m.place.dir) == Burden(m.g, m.d, Before(m), m.place.dir) + Moved(m)
  {
    hide WellFormed, Final, Nodes, EntryAt, Classify, DirSlots, Extent, Moved, DotsRight;
    Basics(m);
    ListExtent(m);
    var dir := m.place.dir;
    var slots := DirSlots(m.g, Before(m)[dir].clusters);
    var parent := DotsPresent(m.g, m.d, m.fat, m.depth, dir);
    DotsOpen(m.d, slots, First(Before(m)[dir].entry), parent);
    ElsewhereKept(m, dir, 0);
    ElsewhereKept(m, dir, 1);
    DotsExtent(m.d, slots);
    DotsExtent(Final(m), slots);
  }

  // ----- The sum -------------------------------------------------------------------------------------

  lemma WeightWithout(g: Geometry, d: Disk, nodes: map<Slot, Node>, s: Slot)
    ensures Weight(g, d, nodes) == Weight(g, d, nodes - {s}) + Burden(g, d, nodes, s)
  {
    hide Extent, DirSlots, Weight;
    if s in nodes {
      var one := map[s := nodes[s]];
      WeightJoins(g, d, nodes - {s}, one);
      assert (nodes - {s}) + one == nodes;
      WeightOne(g, d, s, nodes[s]);
    } else {
      assert nodes - {s} == nodes;
    }
  }

  lemma WeightSame(g: Geometry, d: Disk, d': Disk, nodes: map<Slot, Node>)
    requires forall n :: n in nodes && nodes[n].DirNode? ==> Burden(g, d', nodes, n) == Burden(g, d, nodes, n)
    ensures Weight(g, d', nodes) == Weight(g, d, nodes)
  {
    hide Extent, DirSlots;
    assert forall n :: n in nodes && nodes[n].DirNode? ==>
      Burden(g, d', nodes, n) == Extents(g, d', nodes)[n] && Burden(g, d, nodes, n) == Extents(g, d, nodes)[n];
    assert Extents(g, d', nodes) == Extents(g, d, nodes);
  }

  /** The target is not its own directory. */
  lemma TargetElsewhere(m: Mutation)
    requires WellFormed(m) && m.place.InDir?
    ensures m.place.dir != Target(m)
  {
    hide Nodes, Stage, Batch, DirSlots, RootSlots, EntryAt, Classify, NoneUsed, DotsRight, NodeAt, IsBatch;
    var nodes := Before(m);
    if m.place.dir == Target(m) {
      PlaceChecked(m.g, m.d, m.fat, m.depth, m.place);
      NodesKeys(m.g, m.d, m.fat, m.depth);
      NodeIsThere(m, Target(m));
      NoneUsedAt(m.d, List(m), m.place.index);
    }
  }

  lemma NodeIsThere(m: Mutation, n: Slot)
    requires Located(m) && n in Before(m)
    ensures NodeAt(m.g, m.d, m.fat, n) == Some(Before(m)[n])
  {
    hide NodeAt, Live;
    NodesKeys(m.g, m.d, m.fat, m.depth);
  }

  lemma RestWeight(m: Mutation)
    requires WellFormed(m)
    ensures Extent(Final(m), RootSlots(m.g)) + Weight(m.g, Final(m), Before(m) - {Target(m)}) ==
      Extent(m.d, RootSlots(m.g)) + Weight(m.g, m.d, Before(m) - {Target(m)}) + Moved(m)
  {
    hide WellFormed, Final, Nodes, Extent, Weight, Moved, RootSlots, DirSlots;
    Basics(m);
    var g, d, f, rest := m.g, m.d, Final(m), Before(m) - {Target(m)};
    forall n | n in rest && rest[n].DirNode? && (m.place.InRoot? || m.place.dir != n)
      ensures Burden(g, f, rest, n) == Burden(g, d, rest, n)
    {
      ElsewhereExtent(m, n);
    }
    if m.place.InRoot? {
      ListExtent(m);
      WeightSame(g, d, f, rest);
    } else {
      RootKept(m);
      HereExtent(m);
      TargetElsewhere(m);
      WeightWithout(g, d, rest, m.place.dir);
      WeightWithout(g, f, rest, m.place.dir);
      var others := rest - {m.place.dir};
      assert forall n :: n in others ==> n in rest && others[n] == rest[n];
      assert forall n :: n in others && others[n].DirNode? ==> Burden(g, f, others, n) == Burden(g, f, rest, n);
      WeightSame(g, d, f, others);
    }
  }

  /** A mutation changes the number of entries by the directory it makes, the directory it
      removes, and the end mark it moves. */
  lemma EntriesAfter(m: Mutation)
    requires WellFormed(m)
    ensures Entries.Entries(m.g, Final(m), After(m)) + Burden(m.g, m.d, Before(m), Target(m)) ==
      Entries.Entries(m.g, m.d, Before(m)) + Moved(m) + Burden(m.g, Final(m), After(m), Target(m))
  {
    hide WellFormed, Final, Nodes, Extent, Weight, Moved, RootSlots, DirSlots, NewNode, Classify, Burden, Before;
    Basics(m);
    RestWeight(m);
    WeightWithout(m.g, m.d, Before(m), Target(m));
    WeightWithout(m.g, Final(m), After(m), Target(m));
    assert After(m) - {Target(m)} == Before(m) - {Target(m)};
  }

  // ----- New directories -------------------------------------------------------------------------------

  const NEW_DIRECTORY := 3 // two dot entries and the end mark

  lemma NewListing(g: Geometry, d: Disk, c: nat, self: nat, parent: nat)
    requires g.Valid() && self < 0x1_0000 && parent < 0x1_0000 && At(d, Data(c, 0)) == DirSector(self, parent)
    ensures Extent(d, DirSlots(g, [c])) == NEW_DIRECTORY
  {
    hide DirSector, DirSlots, NewDot, EntryAt, Extent;
    OneCluster(g, c);
    DirSectorEntries(d, c, self, parent);
    var slots := DirSlots(g, [c]);
    assert slots[0] == Slot(Data(c, 0), 0) && slots[1] == Slot(Data(c, 0), 1) && slots[2] == Slot(Data(c, 0), 2);
    DotIsOpen(NewDot(false, self), false, self);
    DotIsOpen(NewDot(true, parent), true, parent);
    ExtentEnds(d, slots, 2);
  }

  lemma NewDirectoryBurden(m: Mutation, c: nat)
    requires NewDirectory(m, c)
    ensures WellFormed(m) && Burden(m.g, Final(m), After(m), Target(m)) == NEW_DIRECTORY
  {
    hide Stage, Batch, EntryAt, Classify, Nodes, Allocated, Leaf, NodeAt, ClearsNext, Next, NewDot, ClusterWrites,
         DirSector, Extent, DirSlots, WellFormed;
    NewDirectoryCommits(m, c);
    NewDirectoryLeaf(m, c);
    LateStage(m, 7);
    Basics(m);
    NewListing(m.g, Final(m), c, c, SelfOf(Before(m), m.place));
  }

  // ----- Growing a directory ------------------------------------------------------------------------------

  lemma InstalledEntry(x: Extend, s: Slot)
    requires Staged(x) && (s.sector.Root? || (s.sector.Data? && !IsFree(x.g, x.fat, s.sector.cluster)))
    ensures EntryAt(Installed(x), s) == EntryAt(x.d, s)
  {
    hide Staged, Installed, Full, DiskTable, Apply, Hung;
    StagedBasics(x);
    DataPhase(x);
    TablePhase(x);
  }

  lemma InstalledKept(x: Extend, n: Slot, i: nat)
    requires Staged(x) && n in Tree0(x) && Tree0(x)[n].DirNode? && i < |DirSlots(x.g, Tree0(x)[n].clusters)|
    ensures var s := DirSlots(x.g, Tree0(x)[n].clusters)[i]; EntryAt(Installed(x), s) == EntryAt(x.d, s)
  {
    hide Installed, DirSlots, EntryAt, NodeAt, Live, DiskTable, Hung, IsBatch, Exclusive;
    StagedBasics(x);
    NodesKeys(x.g, x.d, x.fat, x.depth);
    DirSlotsInChain(x.g, Tree0(x)[n].clusters, i);
    NodeChain(x.g, x.d, x.fat, n);
    InstalledEntry(x, DirSlots(x.g, Tree0(x)[n].clusters)[i]);
  }

  lemma InstalledOther(x: Extend, n: Slot)
    requires Staged(x) && n in Tree0(x) && Tree0(x)[n].DirNode?
    ensures Burden(x.g, Installed(x), Tree0(x), n) == Burden(x.g, x.d, Tree0(x), n)
  {
    hide Staged, Installed, DirSlots, EntryAt, Extent, Full;
    StagedBasics(x);
    var slots := DirSlots(x.g, Tree0(x)[n].clusters);
    forall i | 0 <= i < |slots|
      ensures EntryAt(Installed(x), slots[i]) == EntryAt(x.d, slots[i])
    {
      InstalledKept(x, n, i);
    }
    ExtentFrame(x.d, Installed(x), slots);
  }

  lemma InstalledRoot(x: Extend)
    requires Staged(x)
    ensures Extent(Installed(x), RootSlots(x.g)) == Extent(x.d, RootSlots(x.g))
  {
    hide Staged, Installed, RootSlots, EntryAt, Extent;
    StagedBasics(x);
    forall i | 0 <= i < |RootSlots(x.g)|
      ensures EntryAt(Installed(x), RootSlots(x.g)[i]) == EntryAt(x.d, RootSlots(x.g)[i])
    {
      RootSlotsInRoot(x.g, i);
      InstalledEntry(x, RootSlots(x.g)[i]);
    }
    ExtentFrame(x.d, Installed(x), RootSlots(x.g));
  }

  /** A full directory had no end mark; the new cluster gives it one. */
  lemma InstalledLonger(x: Extend)
    requires Staged(x)
    ensures Extent(x.d, DirSlots(x.g, Chain0(x))) == |DirSlots(x.g, Chain0(x))|
    ensures Extent(Installed(x), DirSlots(x.g, Chain0(x) + [x.c])) == |DirSlots(x.g, Chain0(x))| + 1
  {
    hide Staged, Installed, DirSlots, EntryAt, Extent, Classify, Full;
    StagedBasics(x);
    var before, all := DirSlots(x.g, Chain0(x)), DirSlots(x.g, Chain0(x) + [x.c]);
    LongerListing(x);
    forall i | 0 <= i < |before|
      ensures Classify(EntryAt(x.d, before[i])) != EndMark && Classify(EntryAt(Installed(x), all[i])) != EndMark
    {
      FullEntry(x, i);
      OldEntryKept(x, i);
      assert all[i] == all[..|before|][i];
    }
    ZeroedSlot(x, all[|before|]);
    ExtentEnds(x.d, before, |before|);
    ExtentEnds(Installed(x), all, |before|);
  }

  lemma LongerListing(x: Extend)
    requires Staged(x)
    ensures var before, all := DirSlots(x.g, Chain0(x)), DirSlots(x.g, Chain0(x) + [x.c]);
      && |before| < |all| && all[..|before|] == before && all[|before|] == Slot(Data(x.c, 0), 0)
      && 2 <= |before| && |before| + 1 < |all| && x.g.perCluster > 0
  {
    hide DirSlots, EntryAt, Hung, IsBatch, Nodes, DiskTable;
    GrownSlots(x.g, Chain0(x), x.c);
    GrownSlotCount(x.g, Chain0(x), x.c);
  }

  lemma FullEntry(x: Extend, i: nat)
    requires Full(x) && i < |DirSlots(x.g, Chain0(x))|
    ensures Classify(EntryAt(x.d, DirSlots(x.g, Chain0(x))[i])) != EndMark
  {
    hide DirSlots, EntryAt, Nodes, DiskTable;
  }

  lemma InstalledEntries(x: Extend)
    requires Staged(x)
    ensures Full(x)
    ensures Entries.Entries(x.g, Installed(x), Grown(x)) == Entries.Entries(x.g, x.d, Tree0(x)) + 1
  {
    hide Staged, Installed, DirSlots, RootSlots, Extent, Weight, Full, Nodes, DiskTable, Audited;
    StagedBasics(x);
    InDirectory(x);
    var g, d, f, rest := x.g, x.d, Installed(x), Tree0(x) - {x.dir};
    WeightWithout(g, d, Tree0(x), x.dir);
    WeightWithout(g, f, Grown(x), x.dir);
    assert Grown(x) - {x.dir} == rest;
    forall n | n in rest && rest[n].DirNode?
      ensures Burden(g, f, rest, n) == Burden(g, d, rest, n)
    {
      InstalledOther(x, n);
    }
    WeightSame(g, d, f, rest);
    InstalledRoot(x);
    InstalledLonger(x);
  }

  lemma InDirectory(x: Extend)
    requires Full(x)
    ensures x.dir in Tree0(x) && Tree0(x)[x.dir].DirNode? && Tree0(x)[x.dir].clusters == Chain0(x)
  {
    hide DirSlots, EntryAt, Nodes, DiskTable;
  }

  /** Creating an entry in a directory that grows for it costs two entries and what the new
      node adds. */
  lemma EntriesGrown(x: Extend)
    requires Staged(x) && WellFormed(Publication(x))
    ensures Full(x) && Located(Publication(x))
    ensures var m := Publication(x);
      Entries.Entries(x.g, Final(m), After(m)) ==
      Entries.Entries(x.g, x.d, Tree0(x)) + 2 + Burden(x.g, Final(m), After(m), NewSlot(x))
  {
    hide Staged, WellFormed, Installed, Weight, Extent, Full, Located, Final, DirSlots, Classify, EntryAt, Before,
         After, Entries.Entries;
    StagedBasics(x);
    var m := Publication(x);
    NewSlotFirst(x);
    InstalledEntries(x);
    EntriesAfter(m);
    PublicationMoves(x);
    NewSlotUnused(x);
  }

  lemma PublicationMoves(x: Extend)
    requires Staged(x) && WellFormed(Publication(x))
    ensures Located(Publication(x)) && Moved(Publication(x)) == 1
  {
    hide WellFormed, Installed, DirSlots, Classify, EntryAt, Hung, IsBatch, Nodes, DiskTable;
    StagedBasics(x);
    NewSlotFirst(x);
    LongerListing(x);
    assert Grown(x)[x.dir].clusters == Chain0(x) + [x.c];
    assert List(Publication(x)) == AfterDots(DirSlots(x.g, Chain0(x) + [x.c]));
  }

  lemma NewSlotUnused(x: Extend)
    requires Staged(x) && WellFormed(Publication(x)) && Classify(EntryAt(Installed(x), NewSlot(x))) == EndMark
    ensures
      var m := Publication(x); Located(m) && NewSlot(x) == Target(m) && Burden(m.g, m.d, Before(m), Target(m)) == 0
  {
    hide Staged, WellFormed, Installed, DirSlots, Extent, Full, EntryAt, Classify, Nodes, Listing, Exclusive;
    StagedBasics(x);
    NewSlotFirst(x);
    var m := Publication(x);
    Basics(m);
    PlaceChecked(m.g, m.d, m.fat, m.depth, m.place);
  }
}
