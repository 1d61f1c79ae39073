/** Directory entries and the tree they describe: which slots are live, which
    clusters each one owns, and how an edit of one slot changes that. */
module Tree {
  import opened Common
  import opened Disk
  import opened Fat
  import opened Layout

  const DELETED := 0xe5
  const LONG_NAME := 0x0f
  const DIRECTORY_ENTRY_LIMIT := 65536

  type Entry = e: seq<byte> | |e| == 32 witness Zeros(32)

  // ----- Sectors, slots and entries -------------------------------------------

  function ClusterSectors(g: Geometry, c: nat): (r: seq<Addr>)
    ensures |r| == g.perCluster
  {
    seq(g.perCluster, i requires 0 <= i => Data(c, i))
  }

  /** The data sectors of a chain in file order. */
  function ChainSectors(g: Geometry, ch: seq<nat>): seq<Addr> {
    if ch == [] then []
    else ChainSectors(g, ch[..|ch| - 1]) + ClusterSectors(g, ch[|ch| - 1])
  }

  lemma {:induction false} ChainSectorsOwned(g: Geometry, ch: seq<nat>, a: Addr)
    ensures a in ChainSectors(g, ch) <==> a.Data? && a.cluster in ch && a.index < g.perCluster
    decreases |ch|
  {
    if ch != [] {
      var last := ch[|ch| - 1];
      ChainSectorsOwned(g, ch[..|ch| - 1], a);
      assert ch == ch[..|ch| - 1] + [last];
      if a.Data? && a.cluster == last && a.index < g.perCluster {
        assert ClusterSectors(g, last)[a.index] == a;
      }
    }
  }

  lemma {:induction false} ChainSectorsLength(g: Geometry, ch: seq<nat>)
    ensures |ChainSectors(g, ch)| == |ch| * g.perCluster
    decreases |ch|
  {
    if ch != [] {
      ChainSectorsLength(g, ch[..|ch| - 1]);
      assert |ch| * g.perCluster == (|ch| - 1) * g.perCluster + g.perCluster;
    }
  }

  function SlotsIn(sectors: seq<Addr>): (r: seq<Slot>)
    ensures |r| == |sectors| * ENTRIES_PER_SECTOR
  {
    seq(|sectors| * ENTRIES_PER_SECTOR, j requires 0 <= j < |sectors| * ENTRIES_PER_SECTOR =>
      Slot(sectors[j / ENTRIES_PER_SECTOR], j % ENTRIES_PER_SECTOR))
  }

  function RootSlots(g: Geometry): seq<Slot> {
    SlotsIn(seq(g.RootSectors(), i requires 0 <= i => Root(i)))
  }

  function DirSlots(g: Geometry, ch: seq<nat>): seq<Slot> {
    SlotsIn(ChainSectors(g, ch))
  }

  /** The slots after the two dot entries of a subdirectory. */
  function AfterDots(slots: seq<Slot>): seq<Slot> {
    if |slots| < 2 then [] else slots[2..]
  }

  function EntryAt(d: Disk, s: Slot): Entry {
    At(d, s.sector)[ENTRY * s.index..ENTRY * s.index + ENTRY]
  }

  function SetEntry(sector: Sector, index: SlotIndex, e: Entry): Sector {
    sector[..ENTRY * index] + e + sector[ENTRY * index + ENTRY..]
  }

  lemma SetEntryOnly(d: Disk, s: Slot, e: Entry, x: Slot)
    ensures EntryAt(d[s.sector := SetEntry(At(d, s.sector), s.index, e)], x) == if x == s then e else EntryAt(d, x)
  {
    var before := At(d, s.sector);
    var after := SetEntry(before, s.index, e);
    if x.sector == s.sector {
      var from, at := ENTRY * x.index, ENTRY * s.index;
      assert x.index < s.index ==> from + ENTRY <= at;
      assert x.index > s.index ==> from >= at + ENTRY;
      assert forall k :: 0 <= k < SECTOR ==> after[k] == if at <= k < at + ENTRY then e[k - at] else before[k];
    }
  }

  function Attributes(e: Entry): byte { e[11] }
  predicate Bit(n: int, mask: int) requires mask > 0 { (n / mask) % 2 == 1 }
  predicate DirectoryBit(e: Entry) { Bit(Attributes(e), 0x10) }
  predicate ReadOnlyBit(e: Entry) { Bit(Attributes(e), 1) }
  function First(e: Entry): nat { U16(e, 26) }
  function Size(e: Entry): nat { U32(e, 28) }

  predicate Dot(e: Entry, parent: bool) {
    e[0] == '.' as int && e[1] == (if parent then '.' as int else ' ' as int) &&
    forall i :: 2 <= i < 11 ==> e[i] == ' ' as int
  }

  datatype Kind = EndMark | Skipped | Bad | Used

  /** What the mount audit makes of a slot outside a subdirectory's dot entries. */
  function Classify(e: Entry): Kind {
    if e[0] == 0 then EndMark
    else if e[0] == DELETED || Attributes(e) == LONG_NAME then Skipped
    else if Bit(Attributes(e), 8) then
      if Attributes(e) != 8 || U16(e, 20) != 0 || First(e) != 0 || Size(e) != 0 then Bad else Skipped
    else if Dot(e, false) || Dot(e, true) then Bad
    else if Bit(Attributes(e), 0x40) || Bit(Attributes(e), 0x80) || U16(e, 20) != 0 then Bad
    else Used
  }

  // ----- Nodes and the live tree ----------------------------------------------

  datatype Node =
    | FileNode(entry: Entry, clusters: seq<nat>, content: seq<byte>)
    | DirNode(entry: Entry, clusters: seq<nat>)

  function ClusterBytes(g: Geometry): nat { g.perCluster * SECTOR }

  function Needed(g: Geometry, size: nat): nat
    requires g.perCluster > 0
  {
    (size + ClusterBytes(g) - 1) / ClusterBytes(g)
  }

  /** `size` bytes read from consecutive sectors. */
  function Content(d: Disk, sectors: seq<Addr>, size: nat): (r: seq<byte>)
    ensures |r| == size
  {
    seq(size, j requires 0 <= j < size =>
      if j / SECTOR < |sectors| then At(d, sectors[j / SECTOR])[j % SECTOR] else 0)
  }

  /** The file or directory a live slot describes, if its fields are consistent. */
  function NodeAt(g: Geometry, d: Disk, fat: seq<byte>, s: Slot): Option<Node>
    requires g.perCluster > 0 && IsTable(g, fat)
  {
    var e := EntryAt(d, s);
    if DirectoryBit(e) then
      match Chain(g, fat, First(e))
      case None => None
      case Some(ch) =>
        if Size(e) != 0 || |DirSlots(g, ch)| > DIRECTORY_ENTRY_LIMIT then None else Some(DirNode(e, ch))
    else if Size(e) == 0 then
      if First(e) != 0 then None else Some(FileNode(e, [], []))
    else
      match Chain(g, fat, First(e))
      case None => None
      case Some(ch) =>
        if Needed(g, Size(e)) != |ch| then None
        else Some(FileNode(e, ch, Content(d, ChainSectors(g, ch), Size(e))))
  }

  /** "." names the directory itself and ".." its parent (0 for the root). */
  predicate DotsRight(d: Disk, slots: seq<Slot>, self: nat, parent: nat) {
    && |slots| >= 2
    && DotEntry(EntryAt(d, slots[0]), false, self)
    && DotEntry(EntryAt(d, slots[1]), true, parent)
  }

  predicate DotEntry(e: Entry, parent: bool, cluster: nat) {
    Dot(e, parent) && Attributes(e) == 0x10 && U16(e, 20) == 0 && First(e) == cluster && Size(e) == 0
  }

  /** Every live slot reached from `slots`, or None if some entry is malformed.
      `self` is the first cluster of the directory scanned, `depth` how many
      further levels are allowed. */
  ghost function Live(g: Geometry, d: Disk, fat: seq<byte>, slots: seq<Slot>, self: nat, depth: nat): Option<set<Slot>>
    requires g.perCluster > 0 && IsTable(g, fat)
    decreases depth, |slots|
  {
    if slots == [] then Some({})
    else match Classify(EntryAt(d, slots[0]))
      case EndMark => Some({})
      case Skipped => Live(g, d, fat, slots[1..], self, depth)
      case Bad => None
      case Used => Both(Held(g, d, fat, slots[0], self, depth), Live(g, d, fat, slots[1..], self, depth))
  }

  function Both(a: Option<set<Slot>>, b: Option<set<Slot>>): Option<set<Slot>> {
    if a.Some? && b.Some? then Some(a.value + b.value) else None
  }

  /** A live slot together with everything below it. */
  ghost function Held(g: Geometry, d: Disk, fat: seq<byte>, s: Slot, self: nat, depth: nat): Option<set<Slot>>
    requires g.perCluster > 0 && IsTable(g, fat)
    decreases depth, 0
  {
    match NodeAt(g, d, fat, s)
    case None => None
    case Some(FileNode(_, _, _)) => Some({s})
    case Some(DirNode(_, ch)) =>
      if depth == 0 || !DotsRight(d, DirSlots(g, ch), First(EntryAt(d, s)), self) then None
      else Both(Some({s}), Live(g, d, fat, AfterDots(DirSlots(g, ch)), First(EntryAt(d, s)), depth - 1))
  }

  ghost function LiveTree(g: Geometry, d: Disk, fat: seq<byte>, depth: nat): Option<set<Slot>>
    requires g.perCluster > 0 && IsTable(g, fat)
  {
    Live(g, d, fat, RootSlots(g), 0, depth)
  }

  // ----- Facts about one tree ---------------------------------------------------

  lemma {:induction false} LiveAreNodes(g: Geometry, d: Disk, fat: seq<byte>, slots: seq<Slot>, self: nat, depth: nat,
                                        x: Slot)
    requires g.perCluster > 0 && IsTable(g, fat)
    requires Live(g, d, fat, slots, self, depth).Some? && x in Live(g, d, fat, slots, self, depth).value
    ensures NodeAt(g, d, fat, x).Some? && Classify(EntryAt(d, x)) == Used
    decreases depth, |slots|
  {
    hide NodeAt, Classify, DotsRight, EntryAt, DirSlots, AfterDots;
    var kind := Classify(EntryAt(d, slots[0]));
    if kind == Used {
      var mine := Held(g, d, fat, slots[0], self, depth);
      if x in mine.value {
        var node := NodeAt(g, d, fat, slots[0]).value;
        if node.DirNode? && x != slots[0] {
          LiveAreNodes(g, d, fat, AfterDots(DirSlots(g, node.clusters)), First(EntryAt(d, slots[0])), depth - 1, x);
        }
      } else {
        LiveAreNodes(g, d, fat, slots[1..], self, depth, x);
      }
    } else {
      LiveAreNodes(g, d, fat, slots[1..], self, depth, x);
    }
  }

  /** Position `i` is examined: no end mark comes before it. */
  predicate Reached(d: Disk, slots: seq<Slot>, i: nat) {
    i < |slots| && forall j :: 0 <= j < i ==> Classify(EntryAt(d, slots[j])) != EndMark
  }

  lemma {:induction false} ReachedIsLive(g: Geometry, d: Disk, fat: seq<byte>, slots: seq<Slot>, self: nat, depth: nat,
                                         i: nat)
    requires g.perCluster > 0 && IsTable(g, fat)
    requires Live(g, d, fat, slots, self, depth).Some?
    requires Reached(d, slots, i) && Classify(EntryAt(d, slots[i])) == Used
    ensures slots[i] in Live(g, d, fat, slots, self, depth).value
    decreases i
  {
    if i > 0 {
      assert Classify(EntryAt(d, slots[0])) != EndMark;
      forall j | 0 <= j < i - 1
        ensures Classify(EntryAt(d, slots[1..][j])) != EndMark
      {
        assert slots[1..][j] == slots[j + 1];
      }
      ReachedIsLive(g, d, fat, slots[1..], self, depth, i - 1);
    }
  }

  /** Live directories are themselves scanned. */
  lemma {:induction false} LiveIsClosed(g: Geometry, d: Disk, fat: seq<byte>, slots: seq<Slot>, self: nat, depth: nat,
                                        n: Slot, i: nat)
    requires g.perCluster > 0 && IsTable(g, fat)
    requires Live(g, d, fat, slots, self, depth).Some? && n in Live(g, d, fat, slots, self, depth).value
    requires NodeAt(g, d, fat, n).Some? && NodeAt(g, d, fat, n).value.DirNode?
    requires var list := AfterDots(DirSlots(g, NodeAt(g, d, fat, n).value.clusters));
      Reached(d, list, i) && Classify(EntryAt(d, list[i])) == Used
    ensures AfterDots(DirSlots(g, NodeAt(g, d, fat, n).value.clusters))[i] in Live(g, d, fat, slots, self, depth).value
    decreases depth, |slots|
  {
    hide NodeAt, Classify, DotsRight, EntryAt, DirSlots, AfterDots;
    var list := AfterDots(DirSlots(g, NodeAt(g, d, fat, n).value.clusters));
    var kind := Classify(EntryAt(d, slots[0]));
    if kind == Used && n in Held(g, d, fat, slots[0], self, depth).value {
      if n == slots[0] {
        ReachedIsLive(g, d, fat, list, First(EntryAt(d, n)), depth - 1, i);
      } else {
        var sub := NodeAt(g, d, fat, slots[0]).value;
        LiveIsClosed(g, d, fat, AfterDots(DirSlots(g, sub.clusters)), First(EntryAt(d, slots[0])), depth - 1, n, i);
      }
    } else {
      LiveIsClosed(g, d, fat, slots[1..], self, depth, n, i);
    }
  }

  // ----- Editing one slot -------------------------------------------------------

  /** No slot of the list is live, whatever follows its end mark. */
  predicate NoneUsed(d: Disk, slots: seq<Slot>) {
    slots == [] ||
    match Classify(EntryAt(d, slots[0]))
    case EndMark => true
    case Skipped => NoneUsed(d, slots[1..])
    case _ => false
  }

  lemma {:induction false} NoneUsedIsEmpty(g: Geometry, d: Disk, fat: seq<byte>, slots: seq<Slot>, self: nat,
                                           depth: nat)
    requires g.perCluster > 0 && IsTable(g, fat) && NoneUsed(d, slots)
    ensures Live(g, d, fat, slots, self, depth) == Some({})
    decreases |slots|
  {
    if slots != [] && Classify(EntryAt(d, slots[0])) == Skipped {
      NoneUsedIsEmpty(g, d, fat, slots[1..], self, depth);
    }
  }

  /** A file, or a directory with no live entries: nothing below the slot. */
  predicate Leaf(g: Geometry, d: Disk, fat: seq<byte>, s: Slot, self: nat)
    requires g.perCluster > 0 && IsTable(g, fat)
  {
    && NodeAt(g, d, fat, s).Some?
    && var node := NodeAt(g, d, fat, s).value;
       node.DirNode? ==>
         && DotsRight(d, DirSlots(g, node.clusters), First(EntryAt(d, s)), self)
         && NoneUsed(d, AfterDots(DirSlots(g, node.clusters)))
  }

  lemma LeafHoldsItself(g: Geometry, d: Disk, fat: seq<byte>, s: Slot, self: nat, depth: nat)
    requires g.perCluster > 0 && IsTable(g, fat) && Leaf(g, d, fat, s, self)
    ensures Held(g, d, fat, s, self, depth) ==
      if NodeAt(g, d, fat, s).value.DirNode? && depth == 0 then None else Some({s})
  {
    hide NodeAt, DotsRight, NoneUsed;
    var node := NodeAt(g, d, fat, s).value;
    if node.DirNode? && depth > 0 {
      NoneUsedIsEmpty(g, d, fat, AfterDots(DirSlots(g, node.clusters)), First(EntryAt(d, s)), depth - 1);
      assert {s} + {} == {s};
    }
  }

  /** Two states of the volume and the slot in which their directories differ. */
  datatype Edit = Edit(d: Disk, fat: seq<byte>, d': Disk, fat': seq<byte>, target: Option<Slot>)

  ghost predicate Tables(g: Geometry, edit: Edit) {
    g.perCluster > 0 && IsTable(g, edit.fat) && IsTable(g, edit.fat')
  }

  /** The target keeps the listing's other slots in view: its old contents were
      skipped, a leaf, or the end mark followed by another end mark. */
  ghost predicate WasClear(g: Geometry, edit: Edit, slots: seq<Slot>, i: nat, self: nat)
    requires Tables(g, edit) && i < |slots|
  {
    var kind := Classify(EntryAt(edit.d, slots[i]));
    || kind == Skipped
    || (kind == Used && Leaf(g, edit.d, edit.fat, slots[i], self))
    || (kind == EndMark && (i + 1 == |slots| || Classify(EntryAt(edit.d', slots[i + 1])) == EndMark))
  }

  /** Its new contents are skipped or a leaf. */
  ghost predicate BecomesClear(g: Geometry, edit: Edit, s: Slot, self: nat)
    requires Tables(g, edit)
  {
    var kind := Classify(EntryAt(edit.d', s));
    || kind == Skipped
    || (kind == Used && Leaf(g, edit.d', edit.fat', s, self))
  }

  /** The target lies after the end mark, so no scan sees it. */
  ghost predicate Unreached(d: Disk, slots: seq<Slot>, i: nat) {
    exists j :: 0 <= j < i && j < |slots| && Classify(EntryAt(d, slots[j])) == EndMark
  }

  /** One directory listing before and after the edit. */
  ghost predicate ListKept(g: Geometry, edit: Edit, slots: seq<Slot>, self: nat)
    requires Tables(g, edit)
  {
    forall i :: 0 <= i < |slots| ==>
      if Some(slots[i]) == edit.target then
        Unreached(edit.d, slots, i) || (WasClear(g, edit, slots, i, self) && BecomesClear(g, edit, slots[i], self))
      else EntryAt(edit.d', slots[i]) == EntryAt(edit.d, slots[i])
  }

  /** A live node other than the target keeps its chain, and a directory its listing. */
  ghost predicate NodeKept(g: Geometry, edit: Edit, n: Slot)
    requires Tables(g, edit) && NodeAt(g, edit.d, edit.fat, n).Some?
  {
    var node := NodeAt(g, edit.d, edit.fat, n).value;
    && (forall c :: c in node.clusters && ValidCluster(g, c) ==> Next(g, edit.fat', c) == Next(g, edit.fat, c))
    && (node.DirNode? ==>
          var slots := DirSlots(g, node.clusters);
          && (forall i :: 0 <= i < 2 && i < |slots| ==>
                Some(slots[i]) != edit.target && EntryAt(edit.d', slots[i]) == EntryAt(edit.d, slots[i]))
          && ListKept(g, edit, AfterDots(slots), First(node.entry)))
  }

  ghost predicate OthersKept(g: Geometry, edit: Edit, live: set<Slot>)
    requires Tables(g, edit)
  {
    forall n :: n in live && Some(n) != edit.target ==> NodeAt(g, edit.d, edit.fat, n).Some? && NodeKept(g, edit, n)
  }

  /** Same slots live, the target aside. */
  ghost predicate SameButTarget(edit: Edit, a: set<Slot>, b: set<Slot>) {
    forall x :: Some(x) != edit.target ==> (x in a <==> x in b)
  }

  /** Extra levels are only needed when the target becomes a directory. */
  ghost predicate DeepEnough(g: Geometry, edit: Edit, depth: nat, depth': nat)
    requires Tables(g, edit)
  {
    && depth <= depth'
    && (edit.target.Some? && Classify(EntryAt(edit.d', edit.target.value)) == Used ==>
          var node := NodeAt(g, edit.d', edit.fat', edit.target.value);
          node.Some? && node.value.DirNode? ==> depth < depth')
  }

  lemma ListKeptTail(g: Geometry, edit: Edit, slots: seq<Slot>, self: nat)
    requires Tables(g, edit) && slots != [] && ListKept(g, edit, slots, self)
    requires Classify(EntryAt(edit.d, slots[0])) != EndMark
    ensures ListKept(g, edit, slots[1..], self)
  {
    hide Classify, EntryAt, Leaf, BecomesClear;
    var rest := slots[1..];
    forall i | 0 <= i < |rest|
      ensures
        if Some(rest[i]) == edit.target then
          Unreached(edit.d, rest, i) || (WasClear(g, edit, rest, i, self) && BecomesClear(g, edit, rest[i], self))
        else EntryAt(edit.d', rest[i]) == EntryAt(edit.d, rest[i])
    {
      assert rest[i] == slots[i + 1];
      if Some(rest[i]) == edit.target {
        if Unreached(edit.d, slots, i + 1) {
          var j :| 0 <= j < i + 1 && j < |slots| && Classify(EntryAt(edit.d, slots[j])) == EndMark;
          assert rest[j - 1] == slots[j];
        } else {
          assert WasClear(g, edit, slots, i + 1, self);
          if i + 1 < |rest| { assert rest[i + 1] == slots[i + 2]; }
        }
      }
    }
  }

  lemma NodeKeptSame(g: Geometry, edit: Edit, n: Slot)
    requires Tables(g, edit) && NodeAt(g, edit.d, edit.fat, n).Some? && NodeKept(g, edit, n)
    requires EntryAt(edit.d', n) == EntryAt(edit.d, n)
    ensures NodeAt(g, edit.d', edit.fat', n).Some?
    ensures var a, b := NodeAt(g, edit.d, edit.fat, n).value, NodeAt(g, edit.d', edit.fat', n).value;
      a.DirNode? == b.DirNode? && a.entry == b.entry && a.clusters == b.clusters
  {
    hide EntryAt, ListKept, DirSlots, AfterDots, Content, ChainSectors;
    var e := EntryAt(edit.d, n);
    var ch := NodeAt(g, edit.d, edit.fat, n).value.clusters;
    if DirectoryBit(e) || Size(e) != 0 {
      ChainFrame(g, edit.fat, edit.fat', First(e), ch);
    }
  }

  lemma {:induction false} HeldAfterEdit(g: Geometry, edit: Edit, s: Slot, self: nat, depth: nat, depth': nat)
    requires Tables(g, edit) && DeepEnough(g, edit, depth, depth')
    requires Some(s) != edit.target && EntryAt(edit.d', s) == EntryAt(edit.d, s)
    requires Held(g, edit.d, edit.fat, s, self, depth).Some?
    requires OthersKept(g, edit, Held(g, edit.d, edit.fat, s, self, depth).value)
    ensures Held(g, edit.d', edit.fat', s, self, depth').Some?
    ensures SameButTarget(edit, Held(g, edit.d, edit.fat, s, self, depth).value,
                          Held(g, edit.d', edit.fat', s, self, depth').value)
    decreases depth, 0
  {
    hide NodeAt, EntryAt, DirSlots, AfterDots, ListKept;
    assert NodeAt(g, edit.d, edit.fat, s).Some?;
    assert s in Held(g, edit.d, edit.fat, s, self, depth).value;
    NodeKeptSame(g, edit, s);
    var node := NodeAt(g, edit.d, edit.fat, s).value;
    if node.DirNode? {
      NodeEntry(g, edit.d, edit.fat, s);
      LiveAfterEdit(g, edit, AfterDots(DirSlots(g, node.clusters)), First(EntryAt(edit.d, s)), depth - 1, depth' - 1);
    }
  }

  lemma NodeEntry(g: Geometry, d: Disk, fat: seq<byte>, s: Slot)
    requires g.perCluster > 0 && IsTable(g, fat) && NodeAt(g, d, fat, s).Some?
    ensures NodeAt(g, d, fat, s).value.entry == EntryAt(d, s)
  {
  }

  /** The edit changes the liveness of its target and of nothing else. */
  lemma {:induction false} LiveAfterEdit(g: Geometry, edit: Edit, slots: seq<Slot>, self: nat, depth: nat, depth': nat)
    requires Tables(g, edit) && DeepEnough(g, edit, depth, depth')
    requires Live(g, edit.d, edit.fat, slots, self, depth).Some?
    requires ListKept(g, edit, slots, self)
    requires OthersKept(g, edit, Live(g, edit.d, edit.fat, slots, self, depth).value)
    ensures Live(g, edit.d', edit.fat', slots, self, depth').Some?
    ensures SameButTarget(edit, Live(g, edit.d, edit.fat, slots, self, depth).value,
                                Live(g, edit.d', edit.fat', slots, self, depth').value)
    decreases depth, |slots|
  {
    hide NodeAt, EntryAt, DirSlots, AfterDots, Classify, NodeKept, Held, NoneUsed, DotsRight;
    if slots != [] {
      var s := slots[0];
      var kind := Classify(EntryAt(edit.d, s));
      if kind == EndMark {
        if Some(s) == edit.target { EndMarkConsumed(g, edit, slots, self, depth'); }
      } else {
        ListKeptTail(g, edit, slots, self);
        LiveAfterEdit(g, edit, slots[1..], self, depth, depth');
        if Some(s) == edit.target {
          if kind == Used { LeafHoldsItself(g, edit.d, edit.fat, s, self, depth); }
          if Classify(EntryAt(edit.d', s)) == Used { LeafHoldsItself(g, edit.d', edit.fat', s, self, depth'); }
        } else if kind == Used {
          HeldAfterEdit(g, edit, s, self, depth, depth');
        }
      }
    }
  }

  /** Filling the slot of the end mark adds that slot only. */
  lemma EndMarkConsumed(g: Geometry, edit: Edit, slots: seq<Slot>, self: nat, depth': nat)
    requires Tables(g, edit) && slots != [] && ListKept(g, edit, slots, self)
    requires DeepEnough(g, edit, 0, depth')
    requires Some(slots[0]) == edit.target && Classify(EntryAt(edit.d, slots[0])) == EndMark
    ensures Live(g, edit.d', edit.fat', slots, self, depth').Some?
    ensures Live(g, edit.d', edit.fat', slots, self, depth').value <= {slots[0]}
  {
    hide NodeAt, EntryAt, Classify, NoneUsed, DotsRight, Held;
    assert WasClear(g, edit, slots, 0, self) && BecomesClear(g, edit, slots[0], self);
    if Classify(EntryAt(edit.d', slots[0])) == Used {
      LeafHoldsItself(g, edit.d', edit.fat', slots[0], self, depth');
    }
  }
}
