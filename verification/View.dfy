/** The whole volume as one map from live slots to nodes, and what keeps or
    changes it. */
module View {
  import opened Common
  import opened Disk
  import opened Fat
  import opened Layout
  import opened Tree

  /** All files and directories reachable through one copy of the table. */
  ghost function Nodes(g: Geometry, d: Disk, fat: seq<byte>, depth: nat): Option<map<Slot, Node>>
    requires g.perCluster > 0 && IsTable(g, fat)
  {
    match LiveTree(g, d, fat, depth)
    case None => None
    case Some(live) => Some(NodesOf(g, d, fat, live))
  }

  ghost function NodesOf(g: Geometry, d: Disk, fat: seq<byte>, live: set<Slot>): map<Slot, Node>
    requires g.perCluster > 0 && IsTable(g, fat)
  {
    map s | s in live && NodeAt(g, d, fat, s).Some? :: NodeAt(g, d, fat, s).value
  }

  lemma NodesKeys(g: Geometry, d: Disk, fat: seq<byte>, depth: nat)
    requires g.perCluster > 0 && IsTable(g, fat) && Nodes(g, d, fat, depth).Some?
    ensures Nodes(g, d, fat, depth).value.Keys == LiveTree(g, d, fat, depth).value
    ensures forall s :: s in LiveTree(g, d, fat, depth).value ==>
      NodeAt(g, d, fat, s).Some? && Classify(EntryAt(d, s)) == Used
  {
    hide NodeAt, Classify, EntryAt, RootSlots;
    forall s | s in LiveTree(g, d, fat, depth).value
      ensures NodeAt(g, d, fat, s).Some? && Classify(EntryAt(d, s)) == Used
    {
      LiveAreNodes(g, d, fat, RootSlots(g), 0, depth, s);
    }
  }

  /** No cluster belongs to two nodes. */
  ghost predicate Exclusive(nodes: map<Slot, Node>) {
    forall a, b, c :: a in nodes && b in nodes && a != b && c in nodes[a].clusters ==> c !in nodes[b].clusters
  }

  /** The invariant the mount audit establishes: the tree is well formed and
      its chains are disjoint. */
  ghost predicate Audited(g: Geometry, d: Disk, fat: seq<byte>, depth: nat) {
    && g.Valid()
    && IsTable(g, fat)
    && Nodes(g, d, fat, depth).Some?
    && Exclusive(Nodes(g, d, fat, depth).value)
  }

  /** Every sector and table entry the nodes occupy is the same in both states. */
  ghost predicate Untouched(g: Geometry, d: Disk, fat: seq<byte>, d': Disk, fat': seq<byte>, nodes: map<Slot, Node>)
    requires IsTable(g, fat) && IsTable(g, fat')
  {
    && (forall i :: At(d', Root(i)) == At(d, Root(i)))
    && (forall n, c :: n in nodes && c in nodes[n].clusters && ValidCluster(g, c) ==>
          Next(g, fat', c) == Next(g, fat, c))
    && (forall n, c, i :: n in nodes && c in nodes[n].clusters ==> At(d', Data(c, i)) == At(d, Data(c, i)))
  }

  lemma RootSlotsInRoot(g: Geometry, i: nat)
    requires i < |RootSlots(g)|
    ensures RootSlots(g)[i].sector.Root?
  {
  }

  lemma DirSlotsInChain(g: Geometry, ch: seq<nat>, i: nat)
    requires i < |DirSlots(g, ch)|
    ensures DirSlots(g, ch)[i].sector.Data? && DirSlots(g, ch)[i].sector.cluster in ch
  {
    var sectors := ChainSectors(g, ch);
    ChainSectorsOwned(g, ch, sectors[i / ENTRIES_PER_SECTOR]);
  }

  lemma SameContent(g: Geometry, d: Disk, d': Disk, ch: seq<nat>, size: nat)
    requires forall c, i :: c in ch ==> At(d', Data(c, i)) == At(d, Data(c, i))
    ensures Content(d', ChainSectors(g, ch), size) == Content(d, ChainSectors(g, ch), size)
  {
    var sectors := ChainSectors(g, ch);
    forall a | a in sectors
      ensures At(d', a) == At(d, a)
    {
      ChainSectorsOwned(g, ch, a);
    }
  }

  /** A node depends on its own entry, chain and sectors only. */
  lemma SameNode(g: Geometry, d: Disk, fat: seq<byte>, d': Disk, fat': seq<byte>, s: Slot)
    requires g.perCluster > 0 && IsTable(g, fat) && IsTable(g, fat') && NodeAt(g, d, fat, s).Some?
    requires EntryAt(d', s) == EntryAt(d, s)
    requires var ch := NodeAt(g, d, fat, s).value.clusters;
      && (forall c :: c in ch && ValidCluster(g, c) ==> Next(g, fat', c) == Next(g, fat, c))
      && (NodeAt(g, d, fat, s).value.FileNode? ==> forall c, i :: c in ch ==> At(d', Data(c, i)) == At(d, Data(c, i)))
    ensures NodeAt(g, d', fat', s) == NodeAt(g, d, fat, s)
  {
    hide EntryAt, DirSlots, Content, ChainSectors, Chain;
    var node := NodeAt(g, d, fat, s).value;
    var e := EntryAt(d, s);
    if DirectoryBit(e) || Size(e) != 0 {
      ChainFrame(g, fat, fat', First(e), node.clusters);
    }
    if node.FileNode? {
      SameContent(g, d, d', node.clusters, Size(e));
    }
  }

  /** Changes outside what the nodes occupy are invisible. */
  lemma Frame(g: Geometry, d: Disk, fat: seq<byte>, d': Disk, fat': seq<byte>, depth: nat, depth': nat)
    requires g.perCluster > 0 && IsTable(g, fat) && IsTable(g, fat') && depth <= depth'
    requires Nodes(g, d, fat, depth).Some?
    requires Untouched(g, d, fat, d', fat', Nodes(g, d, fat, depth).value)
    ensures Nodes(g, d', fat', depth') == Nodes(g, d, fat, depth)
  {
    hide NodeAt, EntryAt, Classify, DirSlots, AfterDots, RootSlots, Chain, Live;
    var edit := Edit(d, fat, d', fat', None);
    var live := LiveTree(g, d, fat, depth).value;
    var nodes := Nodes(g, d, fat, depth).value;
    NodesKeys(g, d, fat, depth);
    FrameRoot(g, edit);
    forall n | n in live
      ensures NodeKept(g, edit, n)
    {
      assert nodes[n] == NodeAt(g, d, fat, n).value;
      FrameNode(g, edit, n);
    }
    LiveAfterEdit(g, edit, RootSlots(g), 0, depth, depth');
    assert LiveTree(g, d', fat', depth').value == live;
    forall n | n in live
      ensures NodeAt(g, d', fat', n) == NodeAt(g, d, fat, n)
    {
      FrameEntry(g, edit, depth, n);
      SameNode(g, d, fat, d', fat', n);
    }
    assert Nodes(g, d', fat', depth').value == nodes;
  }

  lemma FrameRoot(g: Geometry, edit: Edit)
    requires Tables(g, edit) && edit.target == None
    requires forall i :: At(edit.d', Root(i)) == At(edit.d, Root(i))
    ensures ListKept(g, edit, RootSlots(g), 0)
  {
    forall i | 0 <= i < |RootSlots(g)|
      ensures EntryAt(edit.d', RootSlots(g)[i]) == EntryAt(edit.d, RootSlots(g)[i])
    {
      RootSlotsInRoot(g, i);
    }
  }

  lemma FrameNode(g: Geometry, edit: Edit, n: Slot)
    requires Tables(g, edit) && edit.target == None && NodeAt(g, edit.d, edit.fat, n).Some?
    requires forall c :: c in NodeAt(g, edit.d, edit.fat, n).value.clusters && ValidCluster(g, c) ==>
      Next(g, edit.fat', c) == Next(g, edit.fat, c)
    requires forall c, i :: c in NodeAt(g, edit.d, edit.fat, n).value.clusters ==>
      At(edit.d', Data(c, i)) == At(edit.d, Data(c, i))
    ensures NodeKept(g, edit, n)
  {
    hide NodeAt, Classify, DirSlots;
    var slots := DirSlots(g, NodeAt(g, edit.d, edit.fat, n).value.clusters);
    forall i | 0 <= i < |slots|
      ensures EntryAt(edit.d', slots[i]) == EntryAt(edit.d, slots[i])
    {
      DirSlotsInChain(g, NodeAt(g, edit.d, edit.fat, n).value.clusters, i);
    }
    assert forall i :: 0 <= i < |AfterDots(slots)| ==> AfterDots(slots)[i] == slots[i + 2];
  }

  /** Every live slot lies in the root or in a live directory's chain. */
  lemma {:induction false} LiveHome(g: Geometry, d: Disk, fat: seq<byte>, slots: seq<Slot>, self: nat, depth: nat,
                                    x: Slot)
    requires g.perCluster > 0 && IsTable(g, fat)
    requires Live(g, d, fat, slots, self, depth).Some? && x in Live(g, d, fat, slots, self, depth).value
    ensures InList(d, slots, x) || exists n ::
      && n in Live(g, d, fat, slots, self, depth).value && NodeAt(g, d, fat, n).Some?
      && NodeAt(g, d, fat, n).value.DirNode?
      && InList(d, AfterDots(DirSlots(g, NodeAt(g, d, fat, n).value.clusters)), x)
    decreases depth, |slots|
  {
    hide NodeAt, Classify, EntryAt, DirSlots, AfterDots, DotsRight;
    var kind := Classify(EntryAt(d, slots[0]));
    if kind == Used && x in Held(g, d, fat, slots[0], self, depth).value {
      var node := NodeAt(g, d, fat, slots[0]).value;
      if x == slots[0] {
        assert Reached(d, slots, 0);
      } else {
        LiveHome(g, d, fat, AfterDots(DirSlots(g, node.clusters)), First(EntryAt(d, slots[0])), depth - 1, x);
      }
    } else {
      LiveHome(g, d, fat, slots[1..], self, depth, x);
      if InList(d, slots[1..], x) {
        var i: nat :| Reached(d, slots[1..], i) && slots[1..][i] == x;
        forall j | 0 <= j < i + 1
          ensures Classify(EntryAt(d, slots[j])) != EndMark
        {
          if j > 0 { assert slots[j] == slots[1..][j - 1]; }
        }
        assert Reached(d, slots, i + 1) && slots[i + 1] == x;
      }
    }
  }

  ghost predicate InList(d: Disk, slots: seq<Slot>, x: Slot) {
    exists i: nat :: Reached(d, slots, i) && slots[i] == x
  }

  lemma InRootList(g: Geometry, d: Disk, n: Slot)
    requires InList(d, RootSlots(g), n)
    ensures n.sector.Root?
  {
    hide RootSlots;
    var i: nat :| Reached(d, RootSlots(g), i) && RootSlots(g)[i] == n;
    RootSlotsInRoot(g, i);
  }

  lemma InDirList(g: Geometry, d: Disk, ch: seq<nat>, n: Slot)
    requires InList(d, AfterDots(DirSlots(g, ch)), n)
    ensures n.sector.Data? && n.sector.cluster in ch
  {
    hide DirSlots;
    var slots := DirSlots(g, ch);
    var i: nat :| Reached(d, AfterDots(slots), i) && AfterDots(slots)[i] == n;
    DirSlotsInChain(g, ch, i + 2);
  }

  lemma FrameEntry(g: Geometry, edit: Edit, depth: nat, n: Slot)
    requires Tables(g, edit)
    requires Nodes(g, edit.d, edit.fat, depth).Some? && n in LiveTree(g, edit.d, edit.fat, depth).value
    requires Untouched(g, edit.d, edit.fat, edit.d', edit.fat', Nodes(g, edit.d, edit.fat, depth).value)
    ensures EntryAt(edit.d', n) == EntryAt(edit.d, n)
  {
    hide NodeAt, Classify, Live, DirSlots, RootSlots, Exclusive, Next;
    NodesKeys(g, edit.d, edit.fat, depth);
    LiveHome(g, edit.d, edit.fat, RootSlots(g), 0, depth, n);
    if InList(edit.d, RootSlots(g), n) {
      InRootList(g, edit.d, n);
    } else {
      var nodes := Nodes(g, edit.d, edit.fat, depth).value;
      var m :| m in nodes && nodes[m].DirNode? && InList(edit.d, AfterDots(DirSlots(g, nodes[m].clusters)), n);
      InDirList(g, edit.d, nodes[m].clusters, n);
    }
  }

  // ----- Editing the slot at a known place ----------------------------------------

  /** Where a slot sits: a position in the root listing or in a live directory's. */
  datatype Place = InRoot(index: nat) | InDir(dir: Slot, index: nat)

  function Listing(g: Geometry, nodes: map<Slot, Node>, place: Place): seq<Slot> {
    match place
    case InRoot(_) => RootSlots(g)
    case InDir(dir, _) => if dir in nodes then AfterDots(DirSlots(g, nodes[dir].clusters)) else []
  }

  function SelfOf(nodes: map<Slot, Node>, place: Place): nat {
    if place.InDir? && place.dir in nodes then First(nodes[place.dir].entry) else 0
  }

  predicate IsPlace(g: Geometry, nodes: map<Slot, Node>, place: Place) {
    && (place.InDir? ==> place.dir in nodes && nodes[place.dir].DirNode?)
    && place.index < |Listing(g, nodes, place)|
  }

  /** The place is examined when its directory is scanned. */
  predicate PlaceOk(g: Geometry, d: Disk, nodes: map<Slot, Node>, place: Place) {
    IsPlace(g, nodes, place) && Reached(d, Listing(g, nodes, place), place.index)
  }

  lemma {:induction false} ChainSectorsDistinct(g: Geometry, ch: seq<nat>, i: nat, j: nat)
    requires NoDuplicates(ch) && i < j < |ChainSectors(g, ch)|
    ensures ChainSectors(g, ch)[i] != ChainSectors(g, ch)[j]
    decreases |ch|
  {
    var front := ch[..|ch| - 1];
    var before := ChainSectors(g, front);
    if j < |before| {
      ChainSectorsDistinct(g, front, i, j);
    } else if i < |before| {
      ChainSectorsOwned(g, front, before[i]);
    }
  }

  lemma DirSlotsDistinct(g: Geometry, ch: seq<nat>, i: nat, j: nat)
    requires NoDuplicates(ch) && i < |DirSlots(g, ch)| && j < |DirSlots(g, ch)|
    requires DirSlots(g, ch)[i] == DirSlots(g, ch)[j]
    ensures i == j
  {
    hide ChainSectors;
    var a, b := i / ENTRIES_PER_SECTOR, j / ENTRIES_PER_SECTOR;
    if a < b { ChainSectorsDistinct(g, ch, a, b); }
    if b < a { ChainSectorsDistinct(g, ch, b, a); }
  }

  lemma RootSlotsDistinct(g: Geometry, i: nat, j: nat)
    requires i < |RootSlots(g)| && j < |RootSlots(g)| && RootSlots(g)[i] == RootSlots(g)[j]
    ensures i == j
  {
  }

  lemma NodeChain(g: Geometry, d: Disk, fat: seq<byte>, s: Slot)
    requires g.perCluster > 0 && IsTable(g, fat) && NodeAt(g, d, fat, s).Some?
    ensures var node := NodeAt(g, d, fat, s).value;
      && NoDuplicates(node.clusters)
      && (forall c :: c in node.clusters ==> ValidCluster(g, c) && Next(g, fat, c) != 0)
      && (node.DirNode? || node.clusters != [] ==> Chain(g, fat, First(node.entry)) == Some(node.clusters))
      && (node.FileNode? && node.clusters == [] ==> node.content == [] && First(node.entry) == 0)
  {
    hide DirSlots, Content, ChainSectors, Chain, EntryAt;
    var node := NodeAt(g, d, fat, s).value;
    var e := EntryAt(d, s);
    if DirectoryBit(e) || Size(e) != 0 {
      ChainIsChain(g, fat, First(e));
      forall c | c in node.clusters
        ensures ValidCluster(g, c) && Next(g, fat, c) != 0
      {
        ChainNotFree(g, fat, First(e), node.clusters, c);
      }
    }
  }

  /** `d'` is `d` with one directory entry replaced. */
  ghost predicate EntryChanged(d: Disk, d': Disk, s: Slot, e: Entry) {
    forall a :: At(d', a) == if a == s.sector then SetEntry(At(d, a), s.index, e) else At(d, a)
  }

  lemma OtherEntries(d: Disk, d': Disk, s: Slot, e: Entry, x: Slot)
    requires EntryChanged(d, d', s, e)
    ensures EntryAt(d', x) == if x == s then e else EntryAt(d, x)
  {
    SetEntryOnly(d, s, e, x);
    var d'' := d[s.sector := SetEntry(At(d, s.sector), s.index, e)];
    assert At(d', x.sector) == At(d'', x.sector);
  }

  /** A slot occurs in no listing but its own, and there once. */
  lemma PlaceUnique(g: Geometry, d: Disk, fat: seq<byte>, depth: nat, place: Place, place': Place)
    requires Audited(g, d, fat, depth)
    requires var nodes := Nodes(g, d, fat, depth).value;
      && IsPlace(g, nodes, place) && IsPlace(g, nodes, place')
      && Listing(g, nodes, place)[place.index] == Listing(g, nodes, place')[place'.index]
    ensures place == place'
  {
    hide Live, NodeAt, DirSlots, RootSlots, ChainSectors;
    var nodes := Nodes(g, d, fat, depth).value;
    NodesKeys(g, d, fat, depth);
    if place.InRoot? { RootSlotsInRoot(g, place.index); }
    if place'.InRoot? { RootSlotsInRoot(g, place'.index); }
    if place.InDir? { DirSlotsInChain(g, nodes[place.dir].clusters, place.index + 2); }
    if place'.InDir? { DirSlotsInChain(g, nodes[place'.dir].clusters, place'.index + 2); }
    if place.InRoot? && place'.InRoot? {
      RootSlotsDistinct(g, place.index, place'.index);
    } else if place.InDir? && place'.InDir? {
      assert place.dir == place'.dir;
      NodeChain(g, d, fat, place.dir);
      DirSlotsDistinct(g, nodes[place.dir].clusters, place.index + 2, place'.index + 2);
    }
  }

  lemma NotADot(g: Geometry, d: Disk, fat: seq<byte>, depth: nat, place: Place, n: Slot, i: nat)
    requires Audited(g, d, fat, depth)
    requires var nodes := Nodes(g, d, fat, depth).value;
      && IsPlace(g, nodes, place) && n in nodes && nodes[n].DirNode?
      && i < 2 && i < |DirSlots(g, nodes[n].clusters)|
    ensures var nodes := Nodes(g, d, fat, depth).value;
      DirSlots(g, nodes[n].clusters)[i] != Listing(g, nodes, place)[place.index]
  {
    hide Live, NodeAt, DirSlots, RootSlots, ChainSectors;
    var nodes := Nodes(g, d, fat, depth).value;
    NodesKeys(g, d, fat, depth);
    DirSlotsInChain(g, nodes[n].clusters, i);
    if place.InRoot? {
      RootSlotsInRoot(g, place.index);
    } else {
      DirSlotsInChain(g, nodes[place.dir].clusters, place.index + 2);
      if n == place.dir && DirSlots(g, nodes[n].clusters)[i] == Listing(g, nodes, place)[place.index] {
        NodeChain(g, d, fat, n);
        DirSlotsDistinct(g, nodes[n].clusters, i, place.index + 2);
      }
    }
  }

  /** One entry is replaced; either nobody sees it, or it was clear and stays clear. */
  ghost predicate EditWhere(g: Geometry, edit: Edit, depth: nat, place: Place, e: Entry) {
    && Audited(g, edit.d, edit.fat, depth)
    && edit.fat' == edit.fat
    && var nodes := Nodes(g, edit.d, edit.fat, depth).value;
       && IsPlace(g, nodes, place)
       && var list, self := Listing(g, nodes, place), SelfOf(nodes, place);
          && edit.target == Some(list[place.index])
          && EntryChanged(edit.d, edit.d', list[place.index], e)
          && (|| Unreached(edit.d, list, place.index)
              || (WasClear(g, edit, list, place.index, self) && BecomesClear(g, edit, list[place.index], self)))
  }

  ghost predicate EditAt(g: Geometry, edit: Edit, depth: nat, depth': nat, place: Place, e: Entry) {
    && EditWhere(g, edit, depth, place, e)
    && var nodes := Nodes(g, edit.d, edit.fat, depth).value;
       && var list, self := Listing(g, nodes, place), SelfOf(nodes, place);
          && Reached(edit.d, list, place.index)
          && WasClear(g, edit, list, place.index, self)
          && BecomesClear(g, edit, list[place.index], self)
          && DeepEnough(g, edit, depth, depth')
  }

  lemma EditKeepsList(g: Geometry, edit: Edit, depth: nat, place: Place, e: Entry, other: Place)
    requires EditWhere(g, edit, depth, place, e)
    requires var nodes := Nodes(g, edit.d, edit.fat, depth).value;
      other.index == 0 && (other.InDir? ==> other.dir in nodes && nodes[other.dir].DirNode?)
    ensures var nodes := Nodes(g, edit.d, edit.fat, depth).value;
      ListKept(g, edit, Listing(g, nodes, other), SelfOf(nodes, other))
  {
    hide Live, NodeAt, DirSlots, RootSlots, Classify, EntryAt, WasClear, BecomesClear;
    var nodes := Nodes(g, edit.d, edit.fat, depth).value;
    var list := Listing(g, nodes, other);
    var s := edit.target.value;
    forall i | 0 <= i < |list|
      ensures
        if Some(list[i]) == edit.target then
          || Unreached(edit.d, list, i)
          || (WasClear(g, edit, list, i, SelfOf(nodes, other)) && BecomesClear(g, edit, list[i], SelfOf(nodes, other)))
        else EntryAt(edit.d', list[i]) == EntryAt(edit.d, list[i])
    {
      if list[i] == s {
        PlaceUnique(g, edit.d, edit.fat, depth, place, other.(index := i));
      } else {
        OtherEntries(edit.d, edit.d', s, e, list[i]);
      }
    }
  }

  lemma EditKeepsNode(g: Geometry, edit: Edit, depth: nat, place: Place, e: Entry, n: Slot)
    requires EditWhere(g, edit, depth, place, e)
    requires n in Nodes(g, edit.d, edit.fat, depth).value && Some(n) != edit.target
    ensures NodeAt(g, edit.d, edit.fat, n).Some? && NodeKept(g, edit, n)
    ensures NodeAt(g, edit.d', edit.fat', n) == NodeAt(g, edit.d, edit.fat, n)
  {
    hide Live, NodeAt, DirSlots, RootSlots, Classify, EntryAt, WasClear, BecomesClear, ListKept;
    var nodes := Nodes(g, edit.d, edit.fat, depth).value;
    var s := edit.target.value;
    NodesKeys(g, edit.d, edit.fat, depth);
    var node := nodes[n];
    NodeEntry(g, edit.d, edit.fat, n);
    if node.DirNode? {
      EditKeepsList(g, edit, depth, place, e, InDir(n, 0));
      var slots := DirSlots(g, node.clusters);
      forall i | 0 <= i < 2 && i < |slots|
        ensures Some(slots[i]) != edit.target && EntryAt(edit.d', slots[i]) == EntryAt(edit.d, slots[i])
      {
        NotADot(g, edit.d, edit.fat, depth, place, n, i);
        OtherEntries(edit.d, edit.d', s, e, slots[i]);
      }
    }
    OtherEntries(edit.d, edit.d', s, e, n);
    if place.InRoot? {
      RootSlotsInRoot(g, place.index);
    } else {
      DirSlotsInChain(g, nodes[place.dir].clusters, place.index + 2);
    }
    SameNode(g, edit.d, edit.fat, edit.d', edit.fat', n);
  }

  lemma {:induction false} NoneUsedAt(d: Disk, slots: seq<Slot>, i: nat)
    requires NoneUsed(d, slots) && Reached(d, slots, i)
    ensures Classify(EntryAt(d, slots[i])) != Used
    decreases i
  {
    if i > 0 {
      assert Classify(EntryAt(d, slots[0])) != EndMark;
      assert forall j :: 0 <= j < i - 1 ==> slots[1..][j] == slots[j + 1];
      NoneUsedAt(d, slots[1..], i - 1);
    }
  }

  /** A directory is not an entry of its own listing. */
  lemma NotItsOwnEntry(g: Geometry, edit: Edit, depth: nat, depth': nat, place: Place, e: Entry)
    requires EditAt(g, edit, depth, depth', place, e) && place.InDir?
    ensures Some(place.dir) != edit.target
  {
    hide Live, NodeAt, DirSlots, AfterDots, Classify, EntryAt, BecomesClear, EntryChanged;
    var nodes := Nodes(g, edit.d, edit.fat, depth).value;
    NodesKeys(g, edit.d, edit.fat, depth);
    if Some(place.dir) == edit.target {
      NoneUsedAt(edit.d, Listing(g, nodes, place), place.index);
    }
  }

  lemma EditReaches(g: Geometry, edit: Edit, depth: nat, depth': nat, place: Place, e: Entry)
    requires EditAt(g, edit, depth, depth', place, e)
    ensures Reached(edit.d', Listing(g, Nodes(g, edit.d, edit.fat, depth).value, place), place.index)
  {
    hide Live, NodeAt, DirSlots, RootSlots, Classify, EntryAt, WasClear, BecomesClear, EntryChanged;
    var nodes := Nodes(g, edit.d, edit.fat, depth).value;
    var list := Listing(g, nodes, place);
    forall j | 0 <= j < place.index
      ensures Classify(EntryAt(edit.d', list[j])) != EndMark
    {
      if list[j] == list[place.index] {
        PlaceUnique(g, edit.d, edit.fat, depth, place, place.(index := j));
      }
      OtherEntries(edit.d, edit.d', list[place.index], e, list[j]);
    }
  }

  /** The view after the edit: the target's node is put, replaced or dropped. */
  lemma EditSlot(g: Geometry, edit: Edit, depth: nat, depth': nat, place: Place, e: Entry)
    requires EditAt(g, edit, depth, depth', place, e)
    ensures var nodes, s := Nodes(g, edit.d, edit.fat, depth).value, edit.target.value;
      && (Classify(e) == Used ==> NodeAt(g, edit.d', edit.fat, s).Some?)
      && (Classify(e) == Used ==>
            Nodes(g, edit.d', edit.fat, depth') == Some(nodes[s := NodeAt(g, edit.d', edit.fat, s).value]))
      && (Classify(e) != Used ==> Nodes(g, edit.d', edit.fat, depth') == Some(nodes - {s}))
  {
    hide Live, NodeAt, DirSlots, RootSlots, Classify, EntryAt, NoneUsed, DotsRight, AfterDots, NodeKept, ListKept;
    var nodes, s := Nodes(g, edit.d, edit.fat, depth).value, edit.target.value;
    NodesKeys(g, edit.d, edit.fat, depth);
    EditKeepsList(g, edit, depth, place, e, InRoot(0));
    forall n | n in nodes && Some(n) != edit.target
      ensures NodeAt(g, edit.d, edit.fat, n).Some? && NodeKept(g, edit, n)
      ensures NodeAt(g, edit.d', edit.fat', n) == NodeAt(g, edit.d, edit.fat, n)
    {
      EditKeepsNode(g, edit, depth, place, e, n);
    }
    LiveAfterEdit(g, edit, RootSlots(g), 0, depth, depth');
    NodesKeys(g, edit.d', edit.fat', depth');
    OtherEntries(edit.d, edit.d', s, e, s);
    if Classify(e) == Used { EditedIsLive(g, edit, depth, depth', place, e); }
    var nodes' := Nodes(g, edit.d', edit.fat', depth').value;
    assert forall x :: x in nodes' <==> (x in nodes && x != s) || (x == s && Classify(e) == Used);
    if Classify(e) == Used {
      assert nodes' == nodes[s := NodeAt(g, edit.d', edit.fat, s).value];
    } else {
      assert nodes' == nodes - {s};
    }
  }

  lemma EditedIsLive(g: Geometry, edit: Edit, depth: nat, depth': nat, place: Place, e: Entry)
    requires EditAt(g, edit, depth, depth', place, e) && Classify(e) == Used
    requires LiveTree(g, edit.d', edit.fat', depth').Some?
    requires SameButTarget(edit, LiveTree(g, edit.d, edit.fat, depth).value,
                           LiveTree(g, edit.d', edit.fat', depth').value)
    ensures edit.target.value in LiveTree(g, edit.d', edit.fat', depth').value
  {
    hide Live, NodeAt, DirSlots, RootSlots, Classify, EntryAt, NoneUsed, DotsRight, AfterDots, NodeKept, ListKept,
         WasClear, BecomesClear;
    var nodes, s := Nodes(g, edit.d, edit.fat, depth).value, edit.target.value;
    NodesKeys(g, edit.d, edit.fat, depth);
    EditReaches(g, edit, depth, depth', place, e);
    OtherEntries(edit.d, edit.d', s, e, s);
    if place.InRoot? {
      ReachedIsLive(g, edit.d', edit.fat', RootSlots(g), 0, depth', place.index);
    } else {
      NotItsOwnEntry(g, edit, depth, depth', place, e);
      EditKeepsNode(g, edit, depth, place, e, place.dir);
      LiveIsClosed(g, edit.d', edit.fat', RootSlots(g), 0, depth', place.dir, place.index);
    }
  }

  /** A slot behind the end mark is not live. */
  lemma UnreachedNotLive(g: Geometry, d: Disk, fat: seq<byte>, depth: nat, place: Place)
    requires Audited(g, d, fat, depth) && IsPlace(g, Nodes(g, d, fat, depth).value, place)
    requires var list := Listing(g, Nodes(g, d, fat, depth).value, place); Unreached(d, list, place.index)
    ensures var nodes := Nodes(g, d, fat, depth).value; Listing(g, nodes, place)[place.index] !in nodes
  {
    hide Live, NodeAt, DirSlots, RootSlots, Classify, EntryAt;
    var nodes := Nodes(g, d, fat, depth).value;
    var s := Listing(g, nodes, place)[place.index];
    NodesKeys(g, d, fat, depth);
    if s in nodes {
      LiveHome(g, d, fat, RootSlots(g), 0, depth, s);
      if InList(d, RootSlots(g), s) {
        var i: nat :| Reached(d, RootSlots(g), i) && RootSlots(g)[i] == s;
        PlaceUnique(g, d, fat, depth, place, InRoot(i));
      } else {
        var n :| n in nodes && nodes[n].DirNode? && InList(d, AfterDots(DirSlots(g, nodes[n].clusters)), s);
        var list := AfterDots(DirSlots(g, nodes[n].clusters));
        var i: nat :| Reached(d, list, i) && list[i] == s;
        PlaceUnique(g, d, fat, depth, place, InDir(n, i));
      }
    }
  }

  /** Erasing a slot behind the end mark changes nothing anybody sees. */
  lemma EraseUnseen(g: Geometry, edit: Edit, depth: nat, depth': nat, place: Place, e: Entry)
    requires EditWhere(g, edit, depth, place, e) && depth <= depth' && Classify(e) == EndMark
    requires var list := Listing(g, Nodes(g, edit.d, edit.fat, depth).value, place);
      Unreached(edit.d, list, place.index)
    ensures Nodes(g, edit.d', edit.fat, depth') == Nodes(g, edit.d, edit.fat, depth)
  {
    hide Live, NodeAt, DirSlots, RootSlots, Classify, EntryAt, NoneUsed, DotsRight, AfterDots, NodeKept, ListKept,
         Unreached;
    var nodes, s := Nodes(g, edit.d, edit.fat, depth).value, edit.target.value;
    NodesKeys(g, edit.d, edit.fat, depth);
    EditKeepsList(g, edit, depth, place, e, InRoot(0));
    forall n | n in nodes && Some(n) != edit.target
      ensures NodeAt(g, edit.d, edit.fat, n).Some? && NodeKept(g, edit, n)
      ensures NodeAt(g, edit.d', edit.fat', n) == NodeAt(g, edit.d, edit.fat, n)
    {
      EditKeepsNode(g, edit, depth, place, e, n);
    }
    UnreachedNotLive(g, edit.d, edit.fat, depth, place);
    OtherEntries(edit.d, edit.d', s, e, s);
    LiveAfterEdit(g, edit, RootSlots(g), 0, depth, depth');
    NodesKeys(g, edit.d', edit.fat', depth');
    assert Nodes(g, edit.d', edit.fat', depth').value == nodes;
  }

  // ----- What the audit knows about a place ---------------------------------------------

  lemma {:induction false} ReachedIsHeld(g: Geometry, d: Disk, fat: seq<byte>, slots: seq<Slot>, self: nat, depth: nat,
                                         i: nat)
    requires g.perCluster > 0 && IsTable(g, fat)
    requires Live(g, d, fat, slots, self, depth).Some?
    requires Reached(d, slots, i)
    ensures Classify(EntryAt(d, slots[i])) != Bad
    ensures Classify(EntryAt(d, slots[i])) == Used ==> Held(g, d, fat, slots[i], self, depth).Some?
    decreases i
  {
    hide Held, Classify, EntryAt;
    if i > 0 {
      assert Classify(EntryAt(d, slots[0])) != EndMark;
      forall j | 0 <= j < i - 1
        ensures Classify(EntryAt(d, slots[1..][j])) != EndMark
      {
        assert slots[1..][j] == slots[j + 1];
      }
      ReachedIsHeld(g, d, fat, slots[1..], self, depth, i - 1);
    }
  }

  /** A live directory's own listing is well formed. */
  lemma {:induction false} ListingIsLive(g: Geometry, d: Disk, fat: seq<byte>, slots: seq<Slot>, self: nat, depth: nat,
                                         n: Slot)
    returns (k: nat)
    requires g.perCluster > 0 && IsTable(g, fat)
    requires Live(g, d, fat, slots, self, depth).Some? && n in Live(g, d, fat, slots, self, depth).value
    requires NodeAt(g, d, fat, n).Some? && NodeAt(g, d, fat, n).value.DirNode?
    ensures Live(g, d, fat, AfterDots(DirSlots(g, NodeAt(g, d, fat, n).value.clusters)), First(EntryAt(d, n)), k).Some?
    decreases depth, |slots|
  {
    hide NodeAt, Classify, DotsRight, EntryAt, DirSlots, AfterDots;
    var kind := Classify(EntryAt(d, slots[0]));
    if kind == Used && n in Held(g, d, fat, slots[0], self, depth).value {
      if n == slots[0] {
        k := depth - 1;
      } else {
        var sub := NodeAt(g, d, fat, slots[0]).value;
        k := ListingIsLive(g, d, fat, AfterDots(DirSlots(g, sub.clusters)), First(EntryAt(d, slots[0])), depth - 1, n);
      }
    } else {
      k := ListingIsLive(g, d, fat, slots[1..], self, depth, n);
    }
  }

  /** Whatever is reached has been checked: no malformed entry, and directories
      have right dot entries. */
  lemma PlaceChecked(g: Geometry, d: Disk, fat: seq<byte>, depth: nat, place: Place)
    requires Audited(g, d, fat, depth) && PlaceOk(g, d, Nodes(g, d, fat, depth).value, place)
    ensures var nodes := Nodes(g, d, fat, depth).value;
      var s := Listing(g, nodes, place)[place.index];
      && Classify(EntryAt(d, s)) != Bad
      && (Classify(EntryAt(d, s)) == Used ==> NodeAt(g, d, fat, s).Some?)
      && (Classify(EntryAt(d, s)) == Used && NodeAt(g, d, fat, s).value.DirNode? ==>
            DotsRight(d, DirSlots(g, NodeAt(g, d, fat, s).value.clusters), First(EntryAt(d, s)), SelfOf(nodes, place)))
      && (Classify(EntryAt(d, s)) == Used <==> s in nodes)
  {
    hide Live, NodeAt, Classify, EntryAt, DirSlots, RootSlots, Exclusive, DotsRight;
    var nodes := Nodes(g, d, fat, depth).value;
    var s := Listing(g, nodes, place)[place.index];
    NodesKeys(g, d, fat, depth);
    if place.InRoot? {
      ReachedIsHeld(g, d, fat, RootSlots(g), 0, depth, place.index);
      if Classify(EntryAt(d, s)) == Used { ReachedIsLive(g, d, fat, RootSlots(g), 0, depth, place.index); }
    } else {
      NodeEntry(g, d, fat, place.dir);
      var k := ListingIsLive(g, d, fat, RootSlots(g), 0, depth, place.dir);
      ReachedIsHeld(g, d, fat, Listing(g, nodes, place), SelfOf(nodes, place), k, place.index);
      if Classify(EntryAt(d, s)) == Used { LiveIsClosed(g, d, fat, RootSlots(g), 0, depth, place.dir, place.index); }
    }
  }

  /** Every live slot has a place. */
  lemma PlaceOf(g: Geometry, d: Disk, fat: seq<byte>, depth: nat, x: Slot) returns (place: Place)
    requires Audited(g, d, fat, depth) && x in Nodes(g, d, fat, depth).value
    ensures PlaceOk(g, d, Nodes(g, d, fat, depth).value, place)
    ensures Listing(g, Nodes(g, d, fat, depth).value, place)[place.index] == x
  {
    hide Live, NodeAt, Classify, EntryAt, DirSlots, RootSlots, Exclusive;
    var nodes := Nodes(g, d, fat, depth).value;
    NodesKeys(g, d, fat, depth);
    LiveHome(g, d, fat, RootSlots(g), 0, depth, x);
    if InList(d, RootSlots(g), x) {
      var i: nat :| Reached(d, RootSlots(g), i) && RootSlots(g)[i] == x;
      place := InRoot(i);
    } else {
      var n :| n in nodes && nodes[n].DirNode? && InList(d, AfterDots(DirSlots(g, nodes[n].clusters)), x);
      var list := AfterDots(DirSlots(g, nodes[n].clusters));
      var i: nat :| Reached(d, list, i) && list[i] == x;
      place := InDir(n, i);
    }
  }

  /** A live directory starts with its two dot entries. */
  lemma DotsPresent(g: Geometry, d: Disk, fat: seq<byte>, depth: nat, n: Slot) returns (parent: nat)
    requires Audited(g, d, fat, depth) && n in Nodes(g, d, fat, depth).value
    requires Nodes(g, d, fat, depth).value[n].DirNode?
    ensures var node := Nodes(g, d, fat, depth).value[n];
      DotsRight(d, DirSlots(g, node.clusters), First(node.entry), parent)
  {
    hide Live, NodeAt, Classify, EntryAt, DirSlots, RootSlots, Exclusive, DotsRight;
    var nodes := Nodes(g, d, fat, depth).value;
    NodesKeys(g, d, fat, depth);
    NodeEntry(g, d, fat, n);
    var place := PlaceOf(g, d, fat, depth, n);
    PlaceChecked(g, d, fat, depth, place);
    parent := SelfOf(nodes, place);
  }
}
