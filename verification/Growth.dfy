/** Extending a full subdirectory by one zeroed cluster. */
module Growth {
  import opened Common
  import opened Disk
  import opened Fat
  import opened Layout
  import opened Tree
  import opened View

  /** Directory `dir` gains cluster `c`; nothing else in use changes. */
  datatype Grow = Grow(g: Geometry, d: Disk, fat: seq<byte>, d': Disk, fat': seq<byte>, dir: Slot, c: nat)

  ghost predicate GrowTables(w: Grow) {
    && w.g.perCluster > 0 && IsTable(w.g, w.fat) && IsTable(w.g, w.fat')
    && NodeAt(w.g, w.d, w.fat, w.dir).Some? && NodeAt(w.g, w.d, w.fat, w.dir).value.DirNode?
  }

  ghost function OldChain(w: Grow): seq<nat>
    requires GrowTables(w)
  {
    NodeAt(w.g, w.d, w.fat, w.dir).value.clusters
  }

  /** The new cluster is zeroed, linked behind the old end and terminates the chain. */
  ghost predicate Linked(w: Grow) {
    && GrowTables(w)
    && IsFree(w.g, w.fat, w.c)
    && Chain(w.g, w.fat', First(EntryAt(w.d, w.dir))) == Some(OldChain(w) + [w.c])
    && |DirSlots(w.g, OldChain(w) + [w.c])| <= DIRECTORY_ENTRY_LIMIT
    && (forall i :: 0 <= i < w.g.perCluster ==> At(w.d', Data(w.c, i)) == Zeros(SECTOR))
  }

  ghost predicate SameEntries(w: Grow, slots: seq<Slot>) {
    forall i :: 0 <= i < |slots| ==> EntryAt(w.d', slots[i]) == EntryAt(w.d, slots[i])
  }

  ghost predicate NodeKeptInGrowth(w: Grow, n: Slot)
    requires GrowTables(w) && NodeAt(w.g, w.d, w.fat, n).Some?
  {
    var node := NodeAt(w.g, w.d, w.fat, n).value;
    && (n != w.dir ==>
          forall c :: c in node.clusters && ValidCluster(w.g, c) ==> Next(w.g, w.fat', c) == Next(w.g, w.fat, c))
    && (node.DirNode? ==> SameEntries(w, DirSlots(w.g, node.clusters)))
  }

  ghost predicate AllKept(w: Grow, live: set<Slot>)
    requires GrowTables(w)
  {
    forall n :: n in live ==> NodeAt(w.g, w.d, w.fat, n).Some? && NodeKeptInGrowth(w, n)
  }

  lemma GrownSlots(g: Geometry, ch: seq<nat>, c: nat)
    requires g.perCluster > 0 && ch != []
    ensures |DirSlots(g, ch)| >= 2 && |DirSlots(g, ch)| < |DirSlots(g, ch + [c])|
    ensures DirSlots(g, ch + [c])[..|DirSlots(g, ch)|] == DirSlots(g, ch)
    ensures DirSlots(g, ch + [c])[|DirSlots(g, ch)|] == Slot(Data(c, 0), 0)
    ensures forall i :: |DirSlots(g, ch)| <= i < |DirSlots(g, ch + [c])| ==>
      DirSlots(g, ch + [c])[i].sector.Data? && DirSlots(g, ch + [c])[i].sector.cluster == c &&
      DirSlots(g, ch + [c])[i].sector.index < g.perCluster
  {
    assert (ch + [c])[..|ch|] == ch;
    var before, all := ChainSectors(g, ch), ChainSectors(g, ch + [c]);
    assert all == before + ClusterSectors(g, c);
    assert ChainSectors(g, ch) == ChainSectors(g, ch[..|ch| - 1]) + ClusterSectors(g, ch[|ch| - 1]);
    assert |before| >= 1;
    forall i | 0 <= i < |DirSlots(g, ch + [c])|
      ensures DirSlots(g, ch + [c])[i] == Slot(all[i / ENTRIES_PER_SECTOR], i % ENTRIES_PER_SECTOR)
      ensures i < |DirSlots(g, ch)| ==> DirSlots(g, ch)[i] == DirSlots(g, ch + [c])[i]
    {
    }
  }

  /** An end mark appended to a listing adds nothing. */
  lemma {:induction false} LiveThenEnd(g: Geometry, d: Disk, fat: seq<byte>, slots: seq<Slot>, more: seq<Slot>,
                                       self: nat, depth: nat)
    requires g.perCluster > 0 && IsTable(g, fat) && more != [] && Classify(EntryAt(d, more[0])) == EndMark
    requires Live(g, d, fat, slots, self, depth).Some?
    ensures Live(g, d, fat, slots + more, self, depth) == Live(g, d, fat, slots, self, depth)
    decreases |slots|
  {
    hide Classify, EntryAt, Held;
    if slots == [] {
      assert slots + more == more;
    } else {
      assert (slots + more)[1..] == slots[1..] + more;
      assert (slots + more)[0] == slots[0];
      if Classify(EntryAt(d, slots[0])) in {Skipped, Used} {
        LiveThenEnd(g, d, fat, slots[1..], more, self, depth);
      }
    }
  }

  /** Scanning the grown listing finds what scanning the old one found. */
  lemma GrownListing(w: Grow, self: nat, depth: nat)
    requires Linked(w) && OldChain(w) != []
    requires Live(w.g, w.d', w.fat', AfterDots(DirSlots(w.g, OldChain(w))), self, depth).Some?
    ensures Live(w.g, w.d', w.fat', AfterDots(DirSlots(w.g, OldChain(w) + [w.c])), self, depth) ==
            Live(w.g, w.d', w.fat', AfterDots(DirSlots(w.g, OldChain(w))), self, depth)
  {
    hide Live, NodeAt, DirSlots, Chain;
    var ch := OldChain(w);
    GrownSlots(w.g, ch, w.c);
    var old', all := DirSlots(w.g, ch), DirSlots(w.g, ch + [w.c]);
    var more := all[|old'|..];
    assert AfterDots(all) == AfterDots(old') + more;
    assert EntryAt(w.d', more[0])[0] == 0;
    LiveThenEnd(w.g, w.d', w.fat', AfterDots(old'), more, self, depth);
  }

  lemma GrownNode(w: Grow)
    requires Linked(w) && EntryAt(w.d', w.dir) == EntryAt(w.d, w.dir)
    ensures NodeAt(w.g, w.d', w.fat', w.dir) == Some(DirNode(EntryAt(w.d, w.dir), OldChain(w) + [w.c]))
  {
    hide DirSlots, Chain, EntryAt, Content;
  }

  lemma KeptNode(w: Grow, n: Slot)
    requires GrowTables(w) && NodeAt(w.g, w.d, w.fat, n).Some? && NodeKeptInGrowth(w, n) && n != w.dir
    requires EntryAt(w.d', n) == EntryAt(w.d, n)
    ensures NodeAt(w.g, w.d', w.fat', n).Some?
    ensures var a, b := NodeAt(w.g, w.d, w.fat, n).value, NodeAt(w.g, w.d', w.fat', n).value;
      a.DirNode? == b.DirNode? && a.entry == b.entry && a.clusters == b.clusters
  {
    hide EntryAt, DirSlots, Content, ChainSectors, Chain, SameEntries;
    var e := EntryAt(w.d, n);
    var ch := NodeAt(w.g, w.d, w.fat, n).value.clusters;
    if DirectoryBit(e) || Size(e) != 0 {
      ChainFrame(w.g, w.fat, w.fat', First(e), ch);
    }
  }

  lemma {:induction false} HeldInGrowth(w: Grow, s: Slot, self: nat, depth: nat)
    requires Linked(w) && OldChain(w) != [] && EntryAt(w.d', s) == EntryAt(w.d, s)
    requires Held(w.g, w.d, w.fat, s, self, depth).Some? && AllKept(w, Held(w.g, w.d, w.fat, s, self, depth).value)
    ensures Held(w.g, w.d', w.fat', s, self, depth) == Held(w.g, w.d, w.fat, s, self, depth)
    decreases depth, 0
  {
    hide NodeAt, EntryAt, DirSlots, Linked, Chain;
    LinkedTables(w);
    assert s in Held(w.g, w.d, w.fat, s, self, depth).value;
    var node := NodeAt(w.g, w.d, w.fat, s).value;
    if s != w.dir { KeptNode(w, s); }
    if node.DirNode? {
      var list := AfterDots(DirSlots(w.g, node.clusters));
      var first := First(EntryAt(w.d, s));
      assert forall i :: 0 <= i < |list| ==> list[i] == DirSlots(w.g, node.clusters)[i + 2];
      LiveInGrowth(w, list, first, depth - 1);
      if s == w.dir {
        GrownNode(w);
        GrownListing(w, first, depth - 1);
        GrownSlots(w.g, OldChain(w), w.c);
        var old', all := DirSlots(w.g, OldChain(w)), DirSlots(w.g, OldChain(w) + [w.c]);
        assert all[0] == all[..|old'|][0] == old'[0] && all[1] == all[..|old'|][1] == old'[1];
      }
    }
  }

  lemma LinkedTables(w: Grow)
    requires Linked(w)
    ensures GrowTables(w) && IsTable(w.g, w.fat)
  {
  }

  lemma {:induction false} LiveInGrowth(w: Grow, slots: seq<Slot>, self: nat, depth: nat)
    requires Linked(w) && OldChain(w) != [] && SameEntries(w, slots)
    requires Live(w.g, w.d, w.fat, slots, self, depth).Some?
    requires AllKept(w, Live(w.g, w.d, w.fat, slots, self, depth).value)
    ensures Live(w.g, w.d', w.fat', slots, self, depth) == Live(w.g, w.d, w.fat, slots, self, depth)
    decreases depth, |slots|
  {
    hide NodeAt, EntryAt, DirSlots, Linked, Chain, Classify, Held, NodeKeptInGrowth;
    LinkedTables(w);
    if slots != [] {
      var kind := Classify(EntryAt(w.d, slots[0]));
      assert forall i :: 0 <= i < |slots[1..]| ==> slots[1..][i] == slots[i + 1];
      if kind == Skipped || kind == Used { LiveInGrowth(w, slots[1..], self, depth); }
      if kind == Used { HeldInGrowth(w, slots[0], self, depth); }
    }
  }

  /** Sectors and table entries in use are kept, the grown directory's last link aside. */
  ghost predicate GrowsFrom(w: Grow, depth: nat) {
    && Audited(w.g, w.d, w.fat, depth)
    && w.dir in Nodes(w.g, w.d, w.fat, depth).value
    && Linked(w)
    && var nodes := Nodes(w.g, w.d, w.fat, depth).value;
       && (forall i :: At(w.d', Root(i)) == At(w.d, Root(i)))
       && (forall n, c, i :: n in nodes && c in nodes[n].clusters ==> At(w.d', Data(c, i)) == At(w.d, Data(c, i)))
       && (forall n, c :: n in nodes && n != w.dir && c in nodes[n].clusters && ValidCluster(w.g, c) ==>
             Next(w.g, w.fat', c) == Next(w.g, w.fat, c))
  }

  lemma GrowthKeepsEntry(w: Grow, depth: nat, n: Slot)
    requires GrowsFrom(w, depth) && n in Nodes(w.g, w.d, w.fat, depth).value
    ensures EntryAt(w.d', n) == EntryAt(w.d, n)
  {
    hide NodeAt, Classify, Live, DirSlots, RootSlots, Exclusive, Next, Linked;
    var nodes := Nodes(w.g, w.d, w.fat, depth).value;
    NodesKeys(w.g, w.d, w.fat, depth);
    LiveHome(w.g, w.d, w.fat, RootSlots(w.g), 0, depth, n);
    if InList(w.d, RootSlots(w.g), n) {
      InRootList(w.g, w.d, n);
    } else {
      var m :| m in nodes && nodes[m].DirNode? && InList(w.d, AfterDots(DirSlots(w.g, nodes[m].clusters)), n);
      InDirList(w.g, w.d, nodes[m].clusters, n);
    }
  }

  lemma GrowthKeepsNode(w: Grow, depth: nat, n: Slot)
    requires GrowsFrom(w, depth) && n in Nodes(w.g, w.d, w.fat, depth).value
    ensures NodeAt(w.g, w.d, w.fat, n).Some? && NodeKeptInGrowth(w, n)
    ensures n != w.dir ==> NodeAt(w.g, w.d', w.fat', n) == NodeAt(w.g, w.d, w.fat, n)
  {
    hide NodeAt, Classify, Live, DirSlots, Exclusive, Linked, Next;
    var nodes := Nodes(w.g, w.d, w.fat, depth).value;
    NodesKeys(w.g, w.d, w.fat, depth);
    var slots := DirSlots(w.g, nodes[n].clusters);
    forall i | 0 <= i < |slots|
      ensures EntryAt(w.d', slots[i]) == EntryAt(w.d, slots[i])
    {
      DirSlotsInChain(w.g, nodes[n].clusters, i);
    }
    GrowthKeepsEntry(w, depth, n);
    LinkedTables(w);
    if n != w.dir { SameNode(w.g, w.d, w.fat, w.d', w.fat', n); }
  }

  /** Growing a directory changes its chain and nothing else in the view. */
  lemma GrowthView(w: Grow, depth: nat)
    requires GrowsFrom(w, depth)
    ensures var nodes := Nodes(w.g, w.d, w.fat, depth).value;
      && Nodes(w.g, w.d', w.fat', depth) ==
           Some(nodes[w.dir := DirNode(nodes[w.dir].entry, nodes[w.dir].clusters + [w.c])])
      && Audited(w.g, w.d', w.fat', depth)
  {
    hide NodeAt, Classify, Live, DirSlots, RootSlots, Next, EntryAt, NodeKeptInGrowth, Chain;
    var nodes := Nodes(w.g, w.d, w.fat, depth).value;
    NodesKeys(w.g, w.d, w.fat, depth);
    NodeChain(w.g, w.d, w.fat, w.dir);
    NodeEntry(w.g, w.d, w.fat, w.dir);
    DirChainNonEmpty(w.g, w.fat, First(nodes[w.dir].entry));
    forall n | n in nodes
      ensures NodeAt(w.g, w.d, w.fat, n).Some? && NodeKeptInGrowth(w, n)
      ensures n != w.dir ==> NodeAt(w.g, w.d', w.fat', n) == NodeAt(w.g, w.d, w.fat, n)
    {
      GrowthKeepsNode(w, depth, n);
    }
    RootKept(w);
    LiveInGrowth(w, RootSlots(w.g), 0, depth);
    GrowthKeepsEntry(w, depth, w.dir);
    GrownNode(w);
    var nodes' := Nodes(w.g, w.d', w.fat', depth).value;
    assert nodes' == nodes[w.dir := DirNode(nodes[w.dir].entry, nodes[w.dir].clusters + [w.c])];
    GrownExclusive(w, depth);
  }

  lemma DirChainNonEmpty(g: Geometry, fat: seq<byte>, first: nat)
    requires IsTable(g, fat) && Chain(g, fat, first).Some?
    ensures Chain(g, fat, first).value != []
  {
    ChainIsChain(g, fat, first);
  }

  lemma RootKept(w: Grow)
    requires forall i :: At(w.d', Root(i)) == At(w.d, Root(i))
    ensures SameEntries(w, RootSlots(w.g))
  {
    forall i | 0 <= i < |RootSlots(w.g)|
      ensures EntryAt(w.d', RootSlots(w.g)[i]) == EntryAt(w.d, RootSlots(w.g)[i])
    {
      RootSlotsInRoot(w.g, i);
    }
  }

  lemma GrownExclusive(w: Grow, depth: nat)
    requires GrowsFrom(w, depth)
    ensures var nodes := Nodes(w.g, w.d, w.fat, depth).value;
      Exclusive(nodes[w.dir := DirNode(nodes[w.dir].entry, nodes[w.dir].clusters + [w.c])])
  {
    hide NodeAt, Classify, Live, DirSlots, RootSlots, EntryAt, Chain;
    var nodes := Nodes(w.g, w.d, w.fat, depth).value;
    NodesKeys(w.g, w.d, w.fat, depth);
    forall n | n in nodes
      ensures w.c !in nodes[n].clusters
    {
      NodeChain(w.g, w.d, w.fat, n);
    }
  }
}
